/** Group commit: windows of appends, their three competing flush triggers, and the gap between draining and committing. */
module Batching {
  import opened Events
  import opened Chain
  import E = Endpoints
  import S = Sorting
  import Runs

  // One caller's append; the ticket stands for the channel its answer arrives on.
  datatype Item = Item(ticket: nat, event: Event)

  datatype Settings = Settings(maxItems: int, maxDelay: int)

  // The caller that crossed the item threshold, with the generation it joined.
  datatype Threshold = Threshold(ticket: nat, generation: nat)

  // The batcher's own fields, what is running around it, and what happened so far.
  datatype Batcher = Batcher(
    settings: Settings, pending: seq<Item>, timer: Option<nat>, generation: nat, closed: bool,
    journal: E.Endpoint,
    callbacks: set<nat>,         // timer callbacks that may still run; stopping a timer can come too late
    thresholds: set<Threshold>,  // threshold callers that have not flushed yet
    closers: nat,                // Close calls between marking closed and flushing
    uncommitted: set<nat>,       // windows drained but not yet committed
    accepted: seq<Item>, drains: seq<seq<Item>>, results: map<nat, Option<Error>>)

  datatype Action =
    | Enqueue(event: Event)
    | TimerFires(generation: nat, late: bool)
    | ThresholdFlush(trigger: Threshold, late: bool)
    | ForceFlush(late: bool)
    | CloseBegins(late: bool)
    | CloseFlush(late: bool)
    | Commit(generation: nat, fails: bool)
    | JournalMoves(journal: E.Endpoint)

  function ItemCursor(item: Item): Cursor {
    item.event.Cursor()
  }

  function EventsOf(items: seq<Item>): (events: seq<Event>)
    ensures |events| == |items|
  {
    seq(|items|, i requires 0 <= i < |items| => items[i].event)
  }

  // `late`: the timer had already fired, so its callback still runs.
  function StopTimer(b: Batcher, late: bool): Batcher {
    b.(timer := None, callbacks := if b.timer.Some? && !late then b.callbacks - {b.timer.value} else b.callbacks)
  }

  function Accept(b: Batcher, event: Event): Batcher {
    if b.closed then b
    else
      var item := Item(|b.accepted|, event);
      var pending := b.pending + [item];
      var armed := |pending| == 1 && b.settings.maxDelay > 0;
      var crossed := b.settings.maxItems > 0 && |pending| >= b.settings.maxItems;
      b.(pending := pending, accepted := b.accepted + [item],
         timer := if armed then Some(b.generation) else b.timer,
         callbacks := if armed then b.callbacks + {b.generation} else b.callbacks,
         thresholds := if crossed then b.thresholds + {Threshold(item.ticket, b.generation)} else b.thresholds)
  }

  // The first half of flush, under the batcher's lock. No captured generation means drain regardless.
  function Drain(b: Batcher, captured: Option<nat>, late: bool): Batcher {
    if b.pending == [] || (captured.Some? && captured.value != b.generation) then b
    else
      StopTimer(b, late).(pending := [], generation := b.generation + 1,
        uncommitted := b.uncommitted + {b.generation}, drains := b.drains + [b.pending])
  }

  // The answers for one window, by ticket; a failed or panicking transaction answers everyone alike.
  function Deliver(results: map<nat, Option<Error>>, items: seq<Item>, answers: seq<Option<Error>>): map<nat, Option<Error>>
    requires |items| == |answers|
  {
    if items == [] then results
    else
      var n := |items| - 1;
      Deliver(results, items[..n], answers[..n])[items[n].ticket := answers[n]]
  }

  function AllFailed(n: nat): (answers: seq<Option<Error>>)
    ensures |answers| == n
  {
    seq(n, i => Some(StorageFailure))
  }

  function Sorted(items: seq<Item>): (sorted: seq<Item>)
    ensures |sorted| == |items| && multiset(sorted) == multiset(items)
  {
    S.SortFacts(items, ItemCursor);
    S.Sort(items, ItemCursor)
  }

  // The second half of flush, after the lock is released.
  function CommitAndNotify(b: Batcher, g: nat, fails: bool): Batcher
    requires g < |b.drains|
  {
    var items := Sorted(b.drains[g]);
    var (journal, answers) := if fails then (b.journal, AllFailed(|items|)) else E.CommitWindow(b.journal, EventsOf(items));
    b.(journal := journal, uncommitted := b.uncommitted - {g}, results := Deliver(b.results, items, answers))
  }

  ghost predicate Enabled(b: Batcher, a: Action) {
    match a
    case Enqueue(event) => true
    case TimerFires(g, late) => g in b.callbacks
    case ThresholdFlush(trigger, late) => trigger in b.thresholds
    case ForceFlush(late) => true
    case CloseBegins(late) => !b.closed
    case CloseFlush(late) => b.closers > 0
    case Commit(g, fails) => g in b.uncommitted && g < |b.drains|
    case JournalMoves(journal) => E.Sound(journal) && b.journal.log <= journal.log
  }

  function Apply(b: Batcher, a: Action): Batcher
    requires Enabled(b, a)
  {
    match a
    case Enqueue(event) => Accept(b, event)
    case TimerFires(g, late) => Drain(b.(callbacks := b.callbacks - {g}), Some(g), late)
    case ThresholdFlush(trigger, late) => Drain(b.(thresholds := b.thresholds - {trigger}), Some(trigger.generation), late)
    case ForceFlush(late) => Drain(b, None, late)
    case CloseBegins(late) => StopTimer(b.(closed := true, closers := b.closers + 1), late)
    case CloseFlush(late) => Drain(b.(closers := b.closers - 1), None, late)
    case Commit(g, fails) => CommitAndNotify(b, g, fails)
    case JournalMoves(journal) => b.(journal := journal)
  }

  ghost predicate Fresh(b: Batcher) {
    && E.Sound(b.journal) && b.pending == [] && b.timer.None? && b.generation == 0 && !b.closed
    && b.callbacks == {} && b.thresholds == {} && b.closers == 0 && b.uncommitted == {}
    && b.accepted == [] && b.drains == [] && b.results == map[]
  }

  ghost predicate Step(b: Batcher, a: Action, c: Batcher) {
    Enabled(b, a) && c == Apply(b, a)
  }

  ghost predicate Reaches(b: Batcher, actions: seq<Action>, c: Batcher) {
    Runs.Leads(Step, b, actions, c)
  }

  lemma Unmoved(b: Batcher, actions: seq<Action>, c: Batcher)
    requires Reaches(b, actions, c) && actions == []
    ensures b == c
  {
    Runs.NoSteps(Step, b, actions, c);
  }

  lemma LastStep(b: Batcher, actions: seq<Action>, c: Batcher) returns (m: Batcher)
    requires Reaches(b, actions, c) && actions != []
    ensures Reaches(b, actions[..|actions| - 1], m) && Enabled(m, actions[|actions| - 1]) && c == Apply(m, actions[|actions| - 1])
  {
    m := Runs.LastStep(Step, b, actions, c);
  }

  lemma OneMoreStep(b: Batcher, actions: seq<Action>, n: nat, m: Batcher)
    requires n < |actions| && Reaches(b, actions[..n], m) && Enabled(m, actions[n])
    ensures Reaches(b, actions[..n + 1], Apply(m, actions[n]))
  {
    assert actions[..n + 1] == actions[..n] + [actions[n]];
    Runs.OneMore(Step, b, actions[..n], m, actions[n], Apply(m, actions[n]));
  }

  lemma NoStepYet(b: Batcher)
    ensures Reaches(b, [], b)
  {
    Runs.NoStepsYet(Step, b);
  }

  // --------------------------------------------------------- the invariant

  function Flat(windows: seq<seq<Item>>): seq<Item> {
    if windows == [] then [] else Flat(windows[..|windows| - 1]) + windows[|windows| - 1]
  }

  // Every accepted item, in the order of acceptance, is in exactly one drained window or still pending.
  predicate Placed(b: Batcher) {
    && Flat(b.drains) + b.pending == b.accepted
    && (forall i :: 0 <= i < |b.accepted| ==> b.accepted[i].ticket == i)
    && |b.drains| == b.generation
    && (forall g :: g in b.uncommitted ==> g < b.generation)
  }

  // A window's items have answers exactly once it is committed; pending items have none.
  predicate Answered(b: Batcher) {
    && (forall g, item :: 0 <= g < |b.drains| && item in b.drains[g] ==> (item.ticket in b.results <==> g !in b.uncommitted))
    && (forall item :: item in b.pending ==> item.ticket !in b.results)
    && (forall t :: t in b.results ==> t < |b.accepted|)
  }

  // nil is only answered for events in the log.
  predicate Durable(b: Batcher) {
    forall t :: t in b.results && b.results[t].None? ==> t < |b.accepted| && b.accepted[t].event in b.journal.log
  }

  // A trigger's window is the one its own event is in; it is the current one or already drained.
  predicate Captured(b: Batcher) {
    && (forall t :: t in b.thresholds ==> t.ticket < |b.accepted| && WindowHas(b, t.generation, b.accepted[t.ticket]))
    && (forall g :: g in b.callbacks ==> g <= b.generation)
    && (b.timer.Some? ==> b.timer.value == b.generation)
  }

  predicate WindowHas(b: Batcher, g: nat, item: Item) {
    if g < |b.drains| then item in b.drains[g] else g == b.generation && item in b.pending
  }

  // Whatever waits, something that will drain it is on its way.
  predicate Covered(b: Batcher) {
    && (b.pending != [] && b.settings.maxDelay > 0 ==> b.generation in b.callbacks || b.closers > 0)
    && (b.pending != [] && b.closed ==> b.closers > 0)
    && (0 < b.settings.maxItems <= |b.pending| ==> b.accepted != [] && Threshold(|b.accepted| - 1, b.generation) in b.thresholds)
  }

  ghost predicate Inv(b: Batcher) {
    E.Sound(b.journal) && Placed(b) && Answered(b) && Durable(b) && Captured(b) && Covered(b)
  }

  // The tickets of a drained window come before every pending ticket, and windows share none.
  lemma {:induction false} FlatOffset(windows: seq<seq<Item>>, g: nat, i: nat) returns (k: nat)
    requires g < |windows| && i < |windows[g]|
    ensures k < |Flat(windows)| && Flat(windows)[k] == windows[g][i]
    ensures k == |Flat(windows[..g])| + i
  {
    var n := |windows| - 1;
    if g < n {
      k := FlatOffset(windows[..n], g, i);
      assert windows[..n][..g] == windows[..g];
    } else {
      k := |Flat(windows[..n])| + i;
    }
  }

  lemma TicketIsPlace(b: Batcher, g: nat, item: Item)
    requires Placed(b) && g < |b.drains| && item in b.drains[g]
    ensures item.ticket < |Flat(b.drains)| && b.accepted[item.ticket] == item
  {
    var i :| 0 <= i < |b.drains[g]| && b.drains[g][i] == item;
    var k := FlatOffset(b.drains, g, i);
    assert b.accepted[k] == item;
  }

  lemma PendingIsPlace(b: Batcher, item: Item)
    requires Placed(b) && item in b.pending
    ensures |Flat(b.drains)| <= item.ticket < |b.accepted| && b.accepted[item.ticket] == item
  {
    var i :| 0 <= i < |b.pending| && b.pending[i] == item;
    assert b.accepted[|Flat(b.drains)| + i] == item;
  }

  // -------------------------------------------------------------- draining

  lemma AcceptKeeps(b: Batcher, event: Event)
    requires Inv(b)
    ensures Inv(Accept(b, event))
  {
    if !b.closed {
      var c := Accept(b, event);
      var item := Item(|b.accepted|, event);
      assert Flat(c.drains) + c.pending == b.accepted + [item];
      forall g, i | 0 <= g < |c.drains| && i in c.drains[g] ensures i.ticket in c.results <==> g !in c.uncommitted {
        assert i in b.drains[g];
      }
      assert Answered(c);
    }
  }

  lemma FlatMore(windows: seq<seq<Item>>, window: seq<Item>)
    ensures Flat(windows + [window]) == Flat(windows) + window
  {
    assert (windows + [window])[..|windows|] == windows;
  }

  lemma DrainKeepsPlaces(b: Batcher, captured: Option<nat>, late: bool)
    requires Placed(b) && Answered(b) && Durable(b)
    ensures var c := Drain(b, captured, late); Placed(c) && Answered(c) && Durable(c)
  {
    FlatMore(b.drains, b.pending);
  }

  lemma DrainKeepsCaptured(b: Batcher, captured: Option<nat>, late: bool)
    requires Placed(b) && Captured(b)
    ensures Captured(Drain(b, captured, late))
  {
    var c := Drain(b, captured, late);
    if c != b {
      forall t | t in c.thresholds ensures WindowHas(c, t.generation, c.accepted[t.ticket]) {
        assert WindowHas(b, t.generation, b.accepted[t.ticket]);
      }
    }
  }

  // A drain that happens leaves nothing pending; one that does not had a stale generation or nothing to do.
  lemma DrainCovers(b: Batcher, captured: Option<nat>, late: bool)
    ensures var c := Drain(b, captured, late);
      c == b || (c.pending == [] && c.drains == b.drains + [b.pending] && (captured.Some? ==> captured.value == b.generation))
  {
  }

  lemma TimerKeeps(b: Batcher, g: nat, late: bool)
    requires Inv(b) && g in b.callbacks
    ensures Inv(Apply(b, TimerFires(g, late)))
  {
    var m := b.(callbacks := b.callbacks - {g});
    DrainKeepsPlaces(m, Some(g), late);
    DrainKeepsCaptured(m, Some(g), late);
    DrainCovers(m, Some(g), late);
  }

  lemma ThresholdKeeps(b: Batcher, t: Threshold, late: bool)
    requires Inv(b) && t in b.thresholds
    ensures Inv(Apply(b, ThresholdFlush(t, late)))
  {
    var m := b.(thresholds := b.thresholds - {t});
    DrainKeepsPlaces(m, Some(t.generation), late);
    DrainKeepsCaptured(m, Some(t.generation), late);
    DrainCovers(m, Some(t.generation), late);
  }

  lemma ForceKeeps(b: Batcher, late: bool)
    requires E.Sound(b.journal) && Placed(b) && Answered(b) && Durable(b) && Captured(b)
    ensures Inv(Drain(b, None, late)) || (b.pending == [] && Drain(b, None, late) == b)
  {
    DrainKeepsPlaces(b, None, late);
    DrainKeepsCaptured(b, None, late);
    DrainCovers(b, None, late);
  }

  lemma CloseKeeps(b: Batcher, late: bool)
    requires Inv(b)
    ensures Inv(StopTimer(b.(closed := true, closers := b.closers + 1), late))
  {
  }

  // ------------------------------------------------------------ committing

  lemma {:induction false} DeliverExact(results: map<nat, Option<Error>>, items: seq<Item>, answers: seq<Option<Error>>, t: nat)
    requires |items| == |answers|
    ensures t in Deliver(results, items, answers) <==> t in results || exists i :: 0 <= i < |items| && items[i].ticket == t
    ensures (forall i :: 0 <= i < |items| ==> items[i].ticket != t) && t in results ==> Deliver(results, items, answers)[t] == results[t]
    ensures t in Deliver(results, items, answers) && (exists i :: 0 <= i < |items| && items[i].ticket == t) ==>
      exists i :: 0 <= i < |items| && items[i].ticket == t && Deliver(results, items, answers)[t] == answers[i]
  {
    if items != [] {
      var n := |items| - 1;
      DeliverExact(results, items[..n], answers[..n], t);
      if items[n].ticket != t {
        forall i | 0 <= i < |items| && items[i].ticket == t ensures i < n && items[..n][i].ticket == t {
        }
      }
    }
  }

  lemma {:induction false} WindowAnswers(ep: E.Endpoint, window: seq<Event>, i: nat)
    requires E.Sound(ep) && i < |window|
    ensures E.Sound(E.CommitWindow(ep, window).0) && ep.log <= E.CommitWindow(ep, window).0.log
    ensures E.CommitWindow(ep, window).1[i].None? ==> window[i] in E.CommitWindow(ep, window).0.log
  {
    hide E.AppendData, Valid;
    var before := E.CommitWindow(ep, Init(window));
    if i < |window| - 1 {
      WindowAnswers(ep, Init(window), i);
    } else if i > 0 {
      WindowAnswers(ep, Init(window), i - 1);
    }
    E.AppendDataSound(before.0, Last(window));
  }

  lemma {:induction false} FlatGrows(windows: seq<seq<Item>>, g: nat, h: nat)
    requires g < h <= |windows|
    ensures |Flat(windows[..g])| + |windows[g]| <= |Flat(windows[..h])|
  {
    assert windows[..h][..h - 1] == windows[..h - 1];
    if g < h - 1 {
      FlatGrows(windows, g, h - 1);
    }
  }

  // One ticket, one window.
  lemma OneWindow(b: Batcher, g: nat, h: nat, x: Item, y: Item)
    requires Placed(b) && g < |b.drains| && h < |b.drains| && x in b.drains[g] && y in b.drains[h] && x.ticket == y.ticket
    ensures g == h && x == y
  {
    TicketIsPlace(b, g, x);
    TicketIsPlace(b, h, y);
    var i :| 0 <= i < |b.drains[g]| && b.drains[g][i] == x;
    var j :| 0 <= j < |b.drains[h]| && b.drains[h][j] == y;
    var k := FlatOffset(b.drains, g, i);
    var l := FlatOffset(b.drains, h, j);
    assert b.accepted[k] == x && b.accepted[l] == y;
    if g < h { FlatGrows(b.drains, g, h); }
    if h < g { FlatGrows(b.drains, h, g); }
  }

  // What committing window g does to the answers: exactly its own tickets are answered.
  lemma CommitAnswers(b: Batcher, g: nat, fails: bool, t: nat)
    requires g < |b.drains|
    ensures var c := CommitAndNotify(b, g, fails);
      && (t in c.results <==> t in b.results || exists item :: item in b.drains[g] && item.ticket == t)
      && ((forall item :: item in b.drains[g] ==> item.ticket != t) && t in b.results ==> c.results[t] == b.results[t])
  {
    var items := Sorted(b.drains[g]);
    var answers := if fails then AllFailed(|items|) else E.CommitWindow(b.journal, EventsOf(items)).1;
    DeliverExact(b.results, items, answers, t);
    forall item ensures item in items <==> item in b.drains[g] {
      assert item in multiset(items) <==> item in multiset(b.drains[g]);
    }
  }

  // An answer of nil from this window is for an event now in the log.
  lemma CommitDurable(b: Batcher, g: nat, fails: bool, x: Item)
    requires E.Sound(b.journal) && Placed(b) && g < |b.drains| && x in b.drains[g]
    ensures var c := CommitAndNotify(b, g, fails);
      && x.ticket in c.results && (c.results[x.ticket].None? ==> x.event in c.journal.log)
  {
    hide E.CommitWindow, E.AppendData, Valid;
    var items := Sorted(b.drains[g]);
    var c := CommitAndNotify(b, g, fails);
    var answers := if fails then AllFailed(|items|) else E.CommitWindow(b.journal, EventsOf(items)).1;
    DeliverExact(b.results, items, answers, x.ticket);
    assert x in multiset(items);
    var k :| 0 <= k < |items| && items[k] == x;
    var i :| 0 <= i < |items| && items[i].ticket == x.ticket && c.results[x.ticket] == answers[i];
    assert items[i] in multiset(items);
    OneWindow(b, g, g, x, items[i]);
    if !fails {
      WindowAnswers(b.journal, EventsOf(items), i);
    }
  }

  lemma CommitGrows(b: Batcher, g: nat, fails: bool)
    requires E.Sound(b.journal) && g < |b.drains|
    ensures var c := CommitAndNotify(b, g, fails); E.Sound(c.journal) && b.journal.log <= c.journal.log
  {
    hide E.CommitWindow, E.AppendData, Valid;
    var items := Sorted(b.drains[g]);
    if items != [] {
      WindowAnswers(b.journal, EventsOf(items), 0);
    } else {
      assert E.CommitWindow(b.journal, []).0 == b.journal by { EmptyWindow(b.journal); }
    }
  }

  lemma EmptyWindow(ep: E.Endpoint)
    ensures E.CommitWindow(ep, []) == (ep, [])
  {
  }

  lemma CommitKeepsAnswered(b: Batcher, g: nat, fails: bool)
    requires Placed(b) && Answered(b) && g in b.uncommitted && g < |b.drains|
    ensures Answered(CommitAndNotify(b, g, fails))
  {
    hide CommitAndNotify, Placed;
    var c := CommitAndNotify(b, g, fails);
    CommitShape(b, g, fails);
    forall h, x | 0 <= h < |c.drains| && x in c.drains[h] ensures x.ticket in c.results <==> h !in c.uncommitted {
      CommitAnswers(b, g, fails, x.ticket);
      if y :| y in b.drains[g] && y.ticket == x.ticket {
        OneWindow(b, g, h, y, x);
      }
    }
    forall x | x in c.pending ensures x.ticket !in c.results {
      CommitAnswers(b, g, fails, x.ticket);
      PendingIsPlace(b, x);
      if y :| y in b.drains[g] && y.ticket == x.ticket {
        TicketIsPlace(b, g, y);
      }
    }
    forall t | t in c.results ensures t < |c.accepted| {
      CommitAnswers(b, g, fails, t);
      if y :| y in b.drains[g] && y.ticket == t {
        TicketBound(b, g, y);
      }
    }
  }

  lemma TicketBound(b: Batcher, g: nat, item: Item)
    requires Placed(b) && g < |b.drains| && item in b.drains[g]
    ensures item.ticket < |b.accepted| && b.accepted[item.ticket] == item
  {
    TicketIsPlace(b, g, item);
  }

  lemma CommitShape(b: Batcher, g: nat, fails: bool)
    requires g < |b.drains|
    ensures var c := CommitAndNotify(b, g, fails);
      c == b.(journal := c.journal, results := c.results, uncommitted := b.uncommitted - {g})
  {
  }

  lemma CommitKeepsDurable(b: Batcher, g: nat, fails: bool)
    requires E.Sound(b.journal) && Placed(b) && Answered(b) && Durable(b) && g in b.uncommitted && g < |b.drains|
    ensures Durable(CommitAndNotify(b, g, fails))
  {
    hide CommitAndNotify, Placed, Answered, Valid;
    var c := CommitAndNotify(b, g, fails);
    CommitShape(b, g, fails);
    CommitGrows(b, g, fails);
    forall t | t in c.results && c.results[t].None? ensures t < |c.accepted| && c.accepted[t].event in c.journal.log {
      CommitAnswers(b, g, fails, t);
      if y :| y in b.drains[g] && y.ticket == t {
        TicketBound(b, g, y);
        CommitDurable(b, g, fails, y);
      }
    }
  }

  lemma CommitKeeps(b: Batcher, g: nat, fails: bool)
    requires Inv(b) && g in b.uncommitted && g < |b.drains|
    ensures Inv(CommitAndNotify(b, g, fails))
  {
    hide CommitAndNotify, Answered, Durable, Valid;
    CommitShape(b, g, fails);
    CommitGrows(b, g, fails);
    CommitKeepsAnswered(b, g, fails);
    CommitKeepsDurable(b, g, fails);
  }

  lemma StepKeepsInv(b: Batcher, a: Action)
    requires Inv(b) && Enabled(b, a)
    ensures Inv(Apply(b, a))
  {
    hide Inv, Accept, Drain, CommitAndNotify;
    match a
    case Enqueue(event) => AcceptKeeps(b, event);
    case TimerFires(g, late) => TimerKeeps(b, g, late);
    case ThresholdFlush(t, late) => ThresholdKeeps(b, t, late);
    case ForceFlush(late) => ForcedKeeps(b, late);
    case CloseBegins(late) => CloseKeeps(b, late);
    case CloseFlush(late) => CloseFlushKeeps(b, late);
    case Commit(g, fails) => CommitKeeps(b, g, fails);
    case JournalMoves(journal) => MoveKeeps(b, journal);
  }

  lemma ForcedKeeps(b: Batcher, late: bool)
    requires Inv(b)
    ensures Inv(Drain(b, None, late))
  {
    ForceKeeps(b, late);
  }

  lemma CloseFlushKeeps(b: Batcher, late: bool)
    requires Inv(b) && b.closers > 0
    ensures Inv(Drain(b.(closers := b.closers - 1), None, late))
  {
    ForceKeeps(b.(closers := b.closers - 1), late);
  }

  lemma MoveKeeps(b: Batcher, journal: E.Endpoint)
    requires Inv(b) && E.Sound(journal) && b.journal.log <= journal.log
    ensures Inv(b.(journal := journal))
  {
  }

  lemma {:induction false} ReachedInv(b: Batcher, actions: seq<Action>, c: Batcher)
    requires Fresh(b) && Reaches(b, actions, c)
    ensures Inv(c)
  {
    hide Inv, Enabled, Apply, Reaches;
    if actions == [] {
      Unmoved(b, actions, c);
      FreshInv(b);
    } else {
      var n := |actions| - 1;
      var m := LastStep(b, actions, c);
      ReachedInv(b, actions[..n], m);
      StepKeepsInv(m, actions[n]);
    }
  }

  lemma FreshInv(b: Batcher)
    requires Fresh(b)
    ensures Inv(b)
  {
  }

  // ----------------------------------------------------------- main results

  // Where ticket t is.
  predicate DrainedIn(b: Batcher, t: nat, g: nat) {
    g < |b.drains| && exists i :: 0 <= i < |b.drains[g]| && b.drains[g][i].ticket == t
  }

  // Every accepted append is pending or was drained, in one window and once; it is answered exactly when that
  // window has been committed, and nil only if its event is in the log.
  lemma ExactlyOnce(b0: Batcher, actions: seq<Action>, b: Batcher, t: nat)
    requires Fresh(b0) && Reaches(b0, actions, b) && t < |b.accepted|
    ensures (b.accepted[t] in b.pending && t !in b.results && forall g: nat :: !DrainedIn(b, t, g))
         || (b.accepted[t] !in b.pending && exists g: nat :: DrainedIn(b, t, g) && (t in b.results <==> g !in b.uncommitted))
    ensures forall g: nat, h: nat :: DrainedIn(b, t, g) && DrainedIn(b, t, h) ==> g == h
    ensures forall g, i, j :: 0 <= g < |b.drains| && 0 <= i < j < |b.drains[g]| ==> b.drains[g][i].ticket != b.drains[g][j].ticket
    ensures t in b.results && b.results[t].None? ==> b.accepted[t].event in b.journal.log
  {
    hide DrainedIn;
    ReachedInv(b0, actions, b);
    WhereIs(b, t);
    forall g: nat, h: nat | DrainedIn(b, t, g) && DrainedIn(b, t, h) ensures g == h {
      DrainedOnce(b, t, g, h);
    }
    forall g, i, j | 0 <= g < |b.drains| && 0 <= i < j < |b.drains[g]| ensures b.drains[g][i].ticket != b.drains[g][j].ticket {
      NoRepeat(b, g, i, j);
    }
  }

  lemma DrainedOnce(b: Batcher, t: nat, g: nat, h: nat)
    requires Placed(b) && DrainedIn(b, t, g) && DrainedIn(b, t, h)
    ensures g == h
  {
    var i :| 0 <= i < |b.drains[g]| && b.drains[g][i].ticket == t;
    var j :| 0 <= j < |b.drains[h]| && b.drains[h][j].ticket == t;
    OneWindow(b, g, h, b.drains[g][i], b.drains[h][j]);
  }

  lemma NoRepeat(b: Batcher, g: nat, i: nat, j: nat)
    requires Placed(b) && g < |b.drains| && i < j < |b.drains[g]|
    ensures b.drains[g][i].ticket != b.drains[g][j].ticket
  {
    var k := FlatOffset(b.drains, g, i);
    var l := FlatOffset(b.drains, g, j);
    assert b.accepted[k] == b.drains[g][i] && b.accepted[l] == b.drains[g][j];
  }

  lemma {:induction false} FlatFinds(windows: seq<seq<Item>>, k: nat) returns (g: nat, i: nat)
    requires k < |Flat(windows)|
    ensures g < |windows| && i < |windows[g]| && windows[g][i] == Flat(windows)[k]
  {
    var n := |windows| - 1;
    if k < |Flat(windows[..n])| {
      g, i := FlatFinds(windows[..n], k);
    } else {
      g, i := n, k - |Flat(windows[..n])|;
    }
  }

  lemma WhereIs(b: Batcher, t: nat)
    requires Inv(b) && t < |b.accepted|
    ensures (b.accepted[t] in b.pending && t !in b.results && forall g: nat :: !DrainedIn(b, t, g))
         || (b.accepted[t] !in b.pending && exists g: nat :: DrainedIn(b, t, g) && (t in b.results <==> g !in b.uncommitted))
  {
    var n := |Flat(b.drains)|;
    if t < n {
      var g, i := FlatFinds(b.drains, t);
      assert b.accepted[t] == b.drains[g][i] && b.accepted[t].ticket == t;
      assert DrainedIn(b, t, g);
      if b.accepted[t] in b.pending {
        PendingIsPlace(b, b.accepted[t]);
      }
    } else {
      assert b.pending[t - n] == b.accepted[t];
      forall g: nat | DrainedIn(b, t, g) ensures false {
        var i :| 0 <= i < |b.drains[g]| && b.drains[g][i].ticket == t;
        TicketIsPlace(b, g, b.drains[g][i]);
      }
    }
  }

  // An answer, once given, is never given again or changed.
  lemma AnswerIsFinal(b0: Batcher, actions: seq<Action>, b: Batcher, a: Action, t: nat)
    requires Fresh(b0) && Reaches(b0, actions, b) && Enabled(b, a) && t in b.results
    ensures t in Apply(b, a).results && Apply(b, a).results[t] == b.results[t]
  {
    ReachedInv(b0, actions, b);
    if a.Commit? {
      CommitAnswers(b, a.generation, a.fails, t);
      forall item | item in b.drains[a.generation] ensures item.ticket != t {
        assert item.ticket in b.results <==> a.generation !in b.uncommitted;
      }
    }
  }

  // A trigger only ever drains the window its own event joined.
  lemma TriggerDrainsItsOwn(b0: Batcher, actions: seq<Action>, b: Batcher, trigger: Threshold, late: bool)
    requires Fresh(b0) && Reaches(b0, actions, b) && trigger in b.thresholds
    ensures var c := Apply(b, ThresholdFlush(trigger, late));
      && trigger.ticket < |b.accepted|
      && DrainedIn(c, trigger.ticket, trigger.generation)
      && (c.drains == b.drains || (c.drains == b.drains + [b.pending] && trigger.generation == b.generation && b.accepted[trigger.ticket] in b.pending))
  {
    ReachedInv(b0, actions, b);
    var g, item := trigger.generation, b.accepted[trigger.ticket];
    assert WindowHas(b, g, item);
    var c := Apply(b, ThresholdFlush(trigger, late));
    assert item in c.drains[g];
    var i :| 0 <= i < |c.drains[g]| && c.drains[g][i] == item;
  }

  // A timer callback left over from an earlier window changes nothing but itself.
  lemma StaleTimerDrainsNothing(b0: Batcher, actions: seq<Action>, b: Batcher, g: nat, late: bool)
    requires Fresh(b0) && Reaches(b0, actions, b) && g in b.callbacks
    ensures g <= b.generation
    ensures g < b.generation ==> Apply(b, TimerFires(g, late)) == b.(callbacks := b.callbacks - {g})
  {
    ReachedInv(b0, actions, b);
  }

  // Once every timer, threshold caller, closer and commit has run, no caller is left waiting: with a time window or
  // after Close everything accepted is answered, otherwise fewer than a full batch still waits.
  lemma NobodyStranded(b0: Batcher, actions: seq<Action>, b: Batcher, t: nat)
    requires Fresh(b0) && Reaches(b0, actions, b) && t < |b.accepted|
    requires b.callbacks == {} && b.thresholds == {} && b.closers == 0 && b.uncommitted == {}
    ensures t in b.results || (b.accepted[t] in b.pending && !b.closed && b.settings.maxDelay <= 0 && (b.settings.maxItems <= 0 || |b.pending| < b.settings.maxItems))
  {
    ReachedInv(b0, actions, b);
    WhereIs(b, t);
  }

  // ------------------------------------------------------ what is answered

  // A drained window, sorted, has every ticket once.
  lemma SortedOnce(b: Batcher, g: nat, i: nat, j: nat)
    requires Placed(b) && g < |b.drains| && i < |Sorted(b.drains[g])| && j < |Sorted(b.drains[g])|
    requires Sorted(b.drains[g])[i].ticket == Sorted(b.drains[g])[j].ticket
    ensures i == j
  {
    var items := Sorted(b.drains[g]);
    assert items[i] in multiset(items) && items[j] in multiset(items);
    OneWindow(b, g, g, items[i], items[j]);
    if i != j {
      var k := if i < j then j else i;
      assert items == items[..k] + items[k..];
      assert items[i] in items[..k] && items[i] in items[k..];
      forall p, q | 0 <= p < q < |b.drains[g]| ensures b.drains[g][p] != b.drains[g][q] {
        NoRepeat(b, g, p, q);
      }
      S.DistinctCount(b.drains[g], items[i]);
    }
  }

  // Every waiter gets the verdict on its own event; if the transaction failed, they all get the failure.
  lemma OwnVerdict(b: Batcher, g: nat, fails: bool, i: nat)
    requires Placed(b) && g < |b.drains| && i < |Sorted(b.drains[g])|
    ensures var items, c := Sorted(b.drains[g]), CommitAndNotify(b, g, fails);
      && items[i].ticket in c.results
      && c.results[items[i].ticket] == (if fails then Some(StorageFailure) else E.CommitWindow(b.journal, EventsOf(items)).1[i])
      && c.journal == (if fails then b.journal else E.CommitWindow(b.journal, EventsOf(items)).0)
  {
    hide E.CommitWindow, Placed;
    var items := Sorted(b.drains[g]);
    var c := CommitAndNotify(b, g, fails);
    var answers := if fails then AllFailed(|items|) else E.CommitWindow(b.journal, EventsOf(items)).1;
    DeliverExact(b.results, items, answers, items[i].ticket);
    var k :| 0 <= k < |items| && items[k].ticket == items[i].ticket && c.results[items[i].ticket] == answers[k];
    SortedOnce(b, g, i, k);
  }

  predicate Ascending(window: seq<Event>) {
    forall i, j :: 0 <= i < j < |window| ==> CompareCursor(window[i].Cursor(), window[j].Cursor()) <= 0
  }

  // In a sorted window an event that was refused does not come in later: either nothing has changed since, or the head has
  // passed it.
  lemma {:induction false} RefusedStaysOut(ep: E.Endpoint, window: seq<Event>, i: nat, n: nat)
    requires E.Sound(ep) && Ascending(window) && i < n <= |window|
    requires E.AppendData(E.CommitWindow(ep, window[..i]).0, window[i]).1.Some?
    ensures var before, after := E.CommitWindow(ep, window[..i]).0, E.CommitWindow(ep, window[..n]).0;
      && E.Sound(before) && E.Sound(after) && window[i] !in after.log
      && (after == before || (after.log != [] && CompareCursor(window[i].Cursor(), Head(after.log)) <= 0))
  {
    hide E.AppendData, Valid;
    var before := E.CommitWindow(ep, window[..i]).0;
    assert Init(window[..n]) == window[..n - 1];
    WindowSound(ep, window[..n - 1]);
    WindowSound(ep, window[..i]);
    E.AppendDataSound(before, window[i]);
    if n == i + 1 {
      E.RefusedUnchanged(before, window[i]);
    } else {
      RefusedStaysOut(ep, window, i, n - 1);
      var last := E.CommitWindow(ep, window[..n - 1]).0;
      NextStaysOut(before, last, window[i], window[n - 1]);
    }
  }

  lemma {:induction false} WindowSound(ep: E.Endpoint, window: seq<Event>)
    requires E.Sound(ep)
    ensures E.Sound(E.CommitWindow(ep, window).0)
  {
    hide E.AppendData, Valid;
    if window != [] {
      WindowSound(ep, Init(window));
      E.AppendDataSound(E.CommitWindow(ep, Init(window)).0, Last(window));
    }
  }

  lemma NextStaysOut(before: E.Endpoint, last: E.Endpoint, e: Event, d: Event)
    requires E.Sound(before) && E.Sound(last) && E.AppendData(before, e).1.Some? && e !in last.log
    requires last == before || (last.log != [] && CompareCursor(e.Cursor(), Head(last.log)) <= 0)
    requires CompareCursor(e.Cursor(), d.Cursor()) <= 0
    ensures var after := E.AppendData(last, d).0;
      && E.Sound(after) && e !in after.log
      && (after == before || (after.log != [] && CompareCursor(e.Cursor(), Head(after.log)) <= 0))
  {
    hide Valid;
    E.AppendDataSound(last, d);
    if Decide(last.project, last.log, d) == Decision.Commit {
      CommitPins(last.project, last.log, d);
    }
  }

  // After a window was committed and the transaction did not fail, an append is answered nil exactly if its event is in the log.
  lemma AnsweredExactly(b: Batcher, g: nat, x: Item)
    requires E.Sound(b.journal) && Placed(b) && g < |b.drains| && x in b.drains[g]
    ensures var c := CommitAndNotify(b, g, false);
      x.ticket in c.results && (c.results[x.ticket].None? <==> x.event in c.journal.log)
  {
    hide E.CommitWindow, E.AppendData, Valid, CommitAndNotify, Placed;
    var items := Sorted(b.drains[g]);
    assert x in multiset(items);
    var i :| 0 <= i < |items| && items[i] == x;
    OwnVerdict(b, g, false, i);
    WindowAnswers(b.journal, EventsOf(items), i);
    S.SortFacts(b.drains[g], ItemCursor);
    var window := EventsOf(items);
    E.AnswerAt(b.journal, window, i);
    if E.CommitWindow(b.journal, window).1[i].Some? {
      assert Ascending(window);
      RefusedStaysOut(b.journal, window, i, |window|);
      assert window[..|window|] == window;
    }
  }

  // Over runs: the caller of every append learns the truth from the commit of its window.
  lemma AnswersAreExact(b0: Batcher, actions: seq<Action>, b: Batcher, g: nat, fails: bool, t: nat)
    requires Fresh(b0) && Reaches(b0, actions, b) && Enabled(b, Action.Commit(g, fails)) && t < |b.accepted| && DrainedIn(b, t, g)
    ensures var c := Apply(b, Action.Commit(g, fails));
      && t in c.results
      && (if fails then c.results[t] == Some(StorageFailure) && c.journal == b.journal
          else c.results[t].None? <==> b.accepted[t].event in c.journal.log)
  {
    hide CommitAndNotify, Inv, Sorted;
    ReachedInv(b0, actions, b);
    InvPlaces(b);
    var i :| 0 <= i < |b.drains[g]| && b.drains[g][i].ticket == t;
    var x := b.drains[g][i];
    TicketIsPlace(b, g, x);
    AnsweredExactly(b, g, x);
    var k := SortedHas(b.drains[g], x);
    OwnVerdict(b, g, fails, k);
  }

  lemma InvPlaces(b: Batcher)
    requires Inv(b)
    ensures E.Sound(b.journal) && Placed(b)
  {
  }

  lemma SortedHas(items: seq<Item>, x: Item) returns (k: nat)
    requires x in items
    ensures k < |Sorted(items)| && Sorted(items)[k] == x
  {
    assert x in multiset(Sorted(items));
    k :| 0 <= k < |Sorted(items)| && Sorted(items)[k] == x;
  }

  // ---------------------------------------------------- why windows are sorted

  lemma {:induction false} ChainCommits(ep: E.Endpoint, chain: seq<Event>)
    requires Valid(ep.project, ep.log + chain)
    ensures var (after, answers) := E.CommitWindow(ep, chain);
      after == ep.(log := ep.log + chain, outbox := after.outbox) && forall i :: 0 <= i < |chain| ==> answers[i].None?
  {
    hide Decide;
    if chain != [] {
      assert Init(ep.log + chain) == ep.log + Init(chain) && Last(ep.log + chain) == Last(chain);
      ChainCommits(ep, Init(chain));
      assert ep.log + chain == ep.log + Init(chain) + [Last(chain)];
    }
  }

  // Whatever order a run of successive events was enqueued in, its window commits them all, in chain order.
  lemma ArrivalOrderIrrelevant(ep: E.Endpoint, items: seq<Item>, chain: seq<Item>)
    requires Valid(ep.project, ep.log + EventsOf(chain)) && multiset(items) == multiset(chain)
    ensures var (after, answers) := E.CommitWindow(ep, EventsOf(Sorted(items)));
      after.log == ep.log + EventsOf(chain) && forall i :: 0 <= i < |answers| ==> answers[i].None?
  {
    hide Valid, Decide, E.CommitWindow, S.Sort;
    S.SortFacts(items, ItemCursor);
    forall i, j | 0 <= i < j < |chain| ensures Before(ItemCursor(chain[i]), ItemCursor(chain[j])) {
      CursorsIncrease(ep.project, ep.log + EventsOf(chain), |ep.log| + i, |ep.log| + j);
    }
    S.AscendingIsUnique(Sorted(items), chain, ItemCursor);
    ChainCommits(ep, EventsOf(chain));
  }

  // Such a window is appended in chain order and every one of its callers is told so.
  lemma ChainIsAnswered(b: Batcher, g: nat, chain: seq<Item>, i: nat)
    requires Placed(b) && g < |b.drains| && multiset(b.drains[g]) == multiset(chain) && i < |chain|
    requires Valid(b.journal.project, b.journal.log + EventsOf(chain))
    ensures var c := CommitAndNotify(b, g, false);
      c.journal.log == b.journal.log + EventsOf(chain) && chain[i].ticket in c.results && c.results[chain[i].ticket] == None
  {
    hide Valid, E.CommitWindow, CommitAndNotify, Placed;
    ArrivalOrderIrrelevant(b.journal, b.drains[g], chain);
    assert chain[i] in multiset(chain);
    var k := SortedHas(b.drains[g], chain[i]);
    OwnVerdict(b, g, false, k);
  }
}
