/** Replicate, DrainOutbox and Promote as callers run them, step by step over journals that change in place. */
module Replication {
  import opened Events
  import opened Chain
  import opened MemoryJournals
  import E = Endpoints
  import P = Promotion
  import S = Sorting

  datatype Health = Health(cursor: Cursor, lag: nat)

  function Ids(events: seq<Event>): (ids: seq<Text>)
    ensures |ids| == |events|
  {
    if events == [] then [] else Ids(Init(events)) + [Last(events).Id()]
  }

  lemma {:induction false} IdsAt(events: seq<Event>, i: nat)
    requires i < |events|
    ensures Ids(events)[i] == events[i].Id()
  {
    if i < |events| - 1 {
      IdsAt(Init(events), i);
    }
  }

  // Delivery goes no further than the first refusal.
  lemma {:induction false} RefusalEndsDelivery(ep: E.Endpoint, events: seq<Event>, n: nat)
    requires n <= |events| && E.IngestAll(ep, events[..n]).2.Some?
    ensures E.IngestAll(ep, events) == E.IngestAll(ep, events[..n])
  {
    if n < |events| {
      assert Init(events)[..n] == events[..n];
      RefusalEndsDelivery(ep, Init(events), n);
    } else {
      assert events[..n] == events;
    }
  }

  lemma IdsOneMore(events: seq<Event>, i: nat)
    requires i < |events|
    ensures Ids(events[..i + 1]) == Ids(events[..i]) + [events[i].Id()]
  {
    assert Init(events[..i + 1]) == events[..i];
  }

  method IngestEvents(ingestor: MemoryJournal, cursor: Cursor, events: seq<Event>)
    returns (health: Health, applied: seq<Text>, failure: Option<Error>)
    requires ingestor.Consistent()
    modifies ingestor
    ensures ingestor.Consistent()
    ensures (ingestor.State(), |applied|, failure) == E.IngestAll(old(ingestor.State()), events)
    ensures |applied| <= |events| && applied == Ids(events[..|applied|])
    ensures health == Health(if applied == [] then cursor else events[|applied| - 1].Cursor(), |events| - |applied|)
  {
    hide E.Ingest, Valid, Indexed, Decide, Verify, Blank;
    health, applied, failure := Health(cursor, |events|), [], None;
    for i := 0 to |events|
      invariant ingestor.Consistent()
      invariant (ingestor.State(), i, None) == E.IngestAll(old(ingestor.State()), events[..i])
      invariant |applied| == i && applied == Ids(events[..i]) && failure.None?
      invariant health == Health(if i == 0 then cursor else events[i - 1].Cursor(), |events| - i)
    {
      assert Init(events[..i + 1]) == events[..i] && Last(events[..i + 1]) == events[i];
      failure := ingestor.IngestReplica(events[i]);
      if failure.Some? {
        RefusalEndsDelivery(old(ingestor.State()), events, i + 1);
        return;
      }
      IdsOneMore(events, i);
      applied := applied + [events[i].Id()];
      health := Health(events[i].Cursor(), health.lag - 1);
    }
    assert events[..|events|] == events;
  }

  // Catches the replica up; with E.ReplicateExact this is all or nothing.
  method Replicate(source: MemoryJournal, replica: MemoryJournal) returns (health: Health, failure: Option<Error>)
    requires source.Consistent() && replica.Consistent()
    modifies replica
    ensures replica.Consistent() && source.Consistent()
    ensures (replica.State(), failure) == E.Replicate(old(source.State()), old(replica.State()))
    ensures failure.None? ==> replica.events == source.events && health.lag == 0
    ensures failure.Some? ==> replica.State() == old(replica.State())
  {
    hide E.IngestAll;
    E.ReplicateExact(source.State(), replica.State());
    failure := E.AheadOrDiverged(replica.head, replica.headHash, source.head, source.headHash);
    health := Health(replica.head, 0);
    if failure.Some? {
      return;
    }
    var events := source.After(replica.head);
    var applied;
    health, applied, failure := IngestEvents(replica, replica.head, events);
  }

  // ----------------------------------------------------------------- outbox

  lemma {:induction false} IngestGrows(ep: E.Endpoint, events: seq<Event>)
    requires E.Sound(ep)
    ensures var r := E.IngestAll(ep, events);
      && E.Sound(r.0) && ep.log <= r.0.log
      && (forall i :: 0 <= i < r.1 ==> events[i] in r.0.log)
  {
    hide E.AppendData, Valid;
    if events != [] {
      IngestGrows(ep, Init(events));
      var before := E.IngestAll(ep, Init(events));
      if before.2.None? && before.0.role.Replica? {
        E.AppendDataSound(before.0, Last(events));
      }
    }
  }

  lemma SetOfIds(events: seq<Event>, n: nat)
    requires n <= |events|
    ensures forall id :: id in E.SetOf(Ids(events[..n])) <==> exists i :: 0 <= i < n && events[i].Id() == id
  {
    var ids := Ids(events[..n]);
    forall id ensures id in E.SetOf(ids) <==> exists i :: 0 <= i < n && events[i].Id() == id {
      if id in E.SetOf(ids) {
        var i :| 0 <= i < |ids| && ids[i] == id;
        IdsAt(events[..n], i);
      }
      if exists i :: 0 <= i < n && events[i].Id() == id {
        var i :| 0 <= i < n && events[i].Id() == id;
        IdsAt(events[..n], i);
        assert ids[i] in ids;
      }
    }
  }

  // Exactly the acknowledged rows are gone.
  ghost predicate RowsLeft(before: E.Endpoint, after: E.Endpoint, replica: Text, acked: seq<Event>) {
    forall e :: e in E.RowsOf(after.outbox, replica).Values <==> e in E.RowsOf(before.outbox, replica).Values && e !in acked
  }

  lemma AckLeaves(before: E.Endpoint, replica: Text, pending: seq<Event>, n: nat)
    requires E.RowsHeld(before) && n <= |pending|
    requires forall e :: e in pending <==> e in E.RowsOf(before.outbox, replica).Values
    ensures RowsLeft(before, E.AckOutbox(before, replica, E.SetOf(Ids(pending[..n]))), replica, pending[..n])
  {
    SetOfIds(pending, n);
    FirstOnes(pending, n);
    var rows, left := E.RowsOf(before.outbox, replica), E.RowsOf(E.AckOutbox(before, replica, E.SetOf(Ids(pending[..n]))).outbox, replica);
    forall e | e in left.Values ensures e in rows.Values && e !in pending[..n] {
      var id :| id in left && left[id] == e;
      assert id in rows && rows[id] == e && e.Id() == id;
    }
    forall e | e in rows.Values && e !in pending[..n] ensures e in left.Values {
      var id :| id in rows && rows[id] == e;
      forall i | 0 <= i < n ensures pending[i].Id() != id {
        assert pending[i] in rows.Values && pending[i] in pending[..n];
      }
      assert id in left && left[id] == e;
    }
  }

  lemma FirstOnes(events: seq<Event>, n: nat)
    requires n <= |events|
    ensures forall e :: e in events[..n] <==> exists i :: 0 <= i < n && events[i] == e
  {
    forall i | 0 <= i < n ensures events[i] in events[..n] {
      assert events[..n][i] == events[i];
    }
  }

  // The rows left after acknowledging what was applied: gone rows are on the replica, kept rows are untouched.
  lemma AckedRows(before: E.Endpoint, replica: Text, pending: seq<Event>, n: nat, held: seq<Event>)
    requires E.RowsHeld(before) && n <= |pending|
    requires forall e :: e in pending <==> e in E.RowsOf(before.outbox, replica).Values
    requires forall i :: 0 <= i < n ==> pending[i] in held
    ensures var after := E.AckOutbox(before, replica, E.SetOf(Ids(pending[..n])));
      && E.RowsHeld(after) && after == before.(outbox := after.outbox)
      && (forall r :: r != replica ==> E.RowsOf(after.outbox, r) == E.RowsOf(before.outbox, r))
      && E.RowsOf(after.outbox, replica).Items <= E.RowsOf(before.outbox, replica).Items
      && (forall e :: e in E.RowsOf(before.outbox, replica).Values ==> e in E.RowsOf(after.outbox, replica).Values || e in held)
      && (n == |pending| ==> E.RowsOf(after.outbox, replica) == map[])
      && RowsLeft(before, after, replica, pending[..n])
  {
    SetOfIds(pending, n);
    var rows := E.RowsOf(before.outbox, replica);
    var after := E.AckOutbox(before, replica, E.SetOf(Ids(pending[..n])));
    var left := E.RowsOf(after.outbox, replica);
    forall id | id in rows && id !in left ensures rows[id] in held {
      var i :| 0 <= i < n && pending[i].Id() == id;
      assert pending[i] in rows.Values;
    }
    AckLeaves(before, replica, pending, n);
    if n == |pending| {
      forall id | id in rows ensures id !in left {
        assert rows[id] in rows.Values;
        var i :| 0 <= i < |pending| && pending[i] == rows[id];
      }
    }
  }

  // The replica holds a prefix of the source's log, and everything beyond it is waiting.
  predicate AllWaiting(source: E.Endpoint, replica: E.Endpoint, replicaId: Text) {
    && replica.role.Replica? && replica.project == source.project && replica.log <= source.log
    && forall i :: |replica.log| <= i < |source.log| ==> source.log[i] in E.RowsOf(source.outbox, replicaId).Values
  }

  ghost predicate Waiting(history: seq<Event>, n: nat, pending: seq<Event>) {
    && S.Sorted(pending, EventCursor)
    && (forall e :: e in pending ==> e in history)
    && (forall i :: n <= i < |history| ==> history[i] in pending)
  }

  // Of two rows in cursor order the later one is not earlier in the history.
  lemma InOrder(project: Text, history: seq<Event>, m: nat, j: nat, pending: seq<Event>, k: nat, p: nat)
    requires Valid(project, history) && S.Sorted(pending, EventCursor) && k <= p < |pending|
    requires m <= j < |history| && pending[k] == history[j] && pending[p] == history[m]
    ensures m == j
  {
    assert CompareCursor(EventCursor(pending[k]), EventCursor(pending[p])) <= 0;
    if m < j {
      CursorsIncrease(project, history, m, j);
    }
  }

  // In cursor order, the next waiting event is one the replica has or exactly the one it lacks.
  lemma NextWaiting(project: Text, history: seq<Event>, n: nat, pending: seq<Event>, m: nat, k: nat)
    requires Valid(project, history) && Waiting(history, n, pending) && n <= m <= |history| && k < |pending|
    requires forall i :: 0 <= i < k ==> pending[i] in history[..m]
    ensures pending[k] in history[..m] || (m < |history| && pending[k] == history[m])
  {
    assert pending[k] in history;
    var j :| 0 <= j < |history| && history[j] == pending[k];
    if j < m {
      assert history[..m][j] == pending[k];
    } else {
      var p :| 0 <= p < |pending| && pending[p] == history[m];
      if p < k {
        var q :| 0 <= q < m && history[..m][q] == pending[p];
        LaterIsFresh(project, history, q, m);
      } else {
        InOrder(project, history, m, j, pending, k, p);
      }
    }
  }

  lemma ReplayChanges(project: Text, history: seq<Event>, m: nat, ep: E.Endpoint, e: Event)
    requires Valid(project, history) && m <= |history| && ep.project == project && ep.role.Replica? && ep.log == history[..m]
    requires e in history[..m] || (m < |history| && e == history[m])
    ensures var (after, failure) := E.Ingest(ep, e);
      && failure.None? && e in after.log && after == ep.(log := after.log, outbox := after.outbox)
      && (after.log == history[..m] || (m < |history| && after.log == history[..m + 1]))
  {
    ValidPrefix(project, history, m);
    DecideExact(project, ep.log, e);
    if e !in history[..m] {
      Admitted(project, history, m);
      assert history[..m + 1] == history[..m] + [e];
    }
  }

  lemma {:induction false} WaitingDelivered(project: Text, history: seq<Event>, pending: seq<Event>, ep: E.Endpoint, k: nat) returns (m: nat)
    requires Valid(project, history) && ep.project == project && ep.role.Replica? && ep.log <= history
    requires Waiting(history, |ep.log|, pending) && k <= |pending|
    ensures |ep.log| <= m <= |history|
    ensures forall i :: 0 <= i < k ==> pending[i] in history[..m]
    ensures var r := E.IngestAll(ep, pending[..k]);
      r.2.None? && r.0 == ep.(log := history[..m], outbox := r.0.outbox)
  {
    hide Waiting, E.Ingest, Valid;
    if k == 0 {
      m := |ep.log|;
    } else {
      m := WaitingDelivered(project, history, pending, ep, k - 1);
      var before := E.IngestAll(ep, pending[..k - 1]).0;
      NextWaiting(project, history, |ep.log|, pending, m, k - 1);
      ReplayChanges(project, history, m, before, pending[k - 1]);
      assert Init(pending[..k]) == pending[..k - 1];
      var after := E.Ingest(before, pending[k - 1]).0;
      forall i | 0 <= i < k ensures pending[i] in after.log {
        if i < k - 1 {
          assert pending[i] in history[..m];
        }
      }
      m := |after.log|;
    }
  }

  lemma WaitingReaches(project: Text, history: seq<Event>, n: nat, pending: seq<Event>, m: nat)
    requires Valid(project, history) && Waiting(history, n, pending) && n <= m <= |history|
    requires forall i :: 0 <= i < |pending| ==> pending[i] in history[..m]
    ensures m == |history|
  {
    if m < |history| {
      var p :| 0 <= p < |pending| && pending[p] == history[m];
      var q :| 0 <= q < m && history[..m][q] == pending[p];
      LaterIsFresh(project, history, q, m);
    }
  }

  lemma WaitingHasIds(project: Text, history: seq<Event>, n: nat, pending: seq<Event>, i: nat)
    requires Valid(project, history) && Waiting(history, n, pending) && i < |pending|
    ensures !Blank(Ids(pending)[i])
  {
    hide Valid, Blank;
    IdsAt(pending, i);
    assert pending[i] in history;
    var j :| 0 <= j < |history| && history[j] == pending[i];
    Linked(project, history, j);
  }

  // Nothing is left over: delivering the waiting rows brings such a replica level with the source.
  lemma DrainLevels(source: E.Endpoint, replica: E.Endpoint, replicaId: Text, pending: seq<Event>)
    requires E.Sound(source) && E.RowsHeld(source) && AllWaiting(source, replica, replicaId)
    requires S.Sorted(pending, EventCursor)
    requires forall e :: e in pending <==> e in E.RowsOf(source.outbox, replicaId).Values
    ensures E.IngestAll(replica, pending).2.None? && E.IngestAll(replica, pending).0.log == source.log
    ensures forall i :: 0 <= i < |pending| ==> !Blank(Ids(pending)[i])
  {
    hide E.IngestAll, Valid, Blank;
    var n := |replica.log|;
    assert Waiting(source.log, n, pending);
    hide Waiting, E.RowsHeld, AllWaiting;
    var m := WaitingDelivered(source.project, source.log, pending, replica, |pending|);
    assert pending[..|pending|] == pending;
    WaitingReaches(source.project, source.log, n, pending, m);
    forall i | 0 <= i < |pending| ensures !Blank(Ids(pending)[i]) {
      WaitingHasIds(source.project, source.log, n, pending, i);
    }
  }

  // Of the rows that still wait, e is the first, and the replica refuses it.
  ghost predicate FirstRefused(source: E.Endpoint, replica: E.Endpoint, replicaId: Text, e: Event, failure: Option<Error>) {
    && e in E.RowsOf(source.outbox, replicaId).Values && E.Ingest(replica, e) == (replica, failure)
    && forall d :: d in E.RowsOf(source.outbox, replicaId).Values ==> CompareCursor(e.Cursor(), d.Cursor()) <= 0
  }

  lemma RowsNamed(source: E.Endpoint, replicaId: Text, pending: seq<Event>, applied: seq<Text>)
    requires E.RowsHeld(source) && |applied| <= |pending| && applied == Ids(pending[..|applied|])
    requires forall e :: e in pending <==> e in E.RowsOf(source.outbox, replicaId).Values
    ensures E.Sound(source) ==> forall i :: 0 <= i < |applied| ==> !Blank(applied[i])
  {
    hide Blank, Valid;
    forall i | E.Sound(source) && 0 <= i < |applied| ensures !Blank(applied[i]) {
      IdsAt(pending[..|applied|], i);
      RowNamed(source, replicaId, pending[i]);
    }
  }

  lemma RowNamed(source: E.Endpoint, replicaId: Text, e: Event)
    requires E.Sound(source) && E.RowsHeld(source) && e in E.RowsOf(source.outbox, replicaId).Values
    ensures !Blank(e.Id())
  {
    hide Valid, Blank;
    assert e in source.log;
    var k :| 0 <= k < |source.log| && source.log[k] == e;
    Linked(source.project, source.log, k);
    CompleteHasId(e);
  }

  lemma CompleteHasId(e: Event)
    requires Verify(e).None?
    ensures !Blank(e.Id())
  {
  }

  // Once the rows before n, in cursor order, are gone and the replica has them, a row n that it refuses is the first left.
  lemma RefusedIsFirst(before: E.Endpoint, after: E.Endpoint, replica: E.Endpoint, replicaId: Text, pending: seq<Event>, n: nat, failure: Option<Error>)
    requires n < |pending| && S.Sorted(pending, EventCursor) && RowsLeft(before, after, replicaId, pending[..n])
    requires forall e :: e in pending <==> e in E.RowsOf(before.outbox, replicaId).Values
    requires E.Sound(replica) && (forall i :: 0 <= i < n ==> pending[i] in replica.log) && (n > 0 ==> replica.role.Replica?)
    requires E.Ingest(replica, pending[n]) == (replica, failure) && failure.Some?
    ensures FirstRefused(after, replica, replicaId, pending[n], failure)
  {
    hide Valid, Decide;
    DecideExact(replica.project, replica.log, pending[n]);
    FirstOnes(pending, n);
    forall d | d in E.RowsOf(after.outbox, replicaId).Values ensures CompareCursor(pending[n].Cursor(), d.Cursor()) <= 0 {
      var i :| 0 <= i < |pending| && pending[i] == d;
      assert i >= n;
      assert CompareCursor(EventCursor(pending[n]), EventCursor(pending[i])) <= 0;
    }
  }

  lemma {:induction false} TakersAreReplicas(ep: E.Endpoint, events: seq<Event>)
    ensures E.IngestAll(ep, events).1 > 0 ==> ep.role.Replica?
    ensures E.IngestAll(ep, events).0.role == ep.role
  {
    hide E.AppendData;
    if events != [] {
      TakersAreReplicas(ep, Init(events));
      RoleStays(E.IngestAll(ep, Init(events)).0, Last(events));
    }
  }

  lemma RoleStays(ep: E.Endpoint, e: Event)
    ensures E.AppendData(ep, e).0.role == ep.role
  {
    hide Decide;
  }

  // Delivers the waiting rows in cursor order and removes those the replica took. `stops` is a crash before the removal.
  method DrainOutbox(source: MemoryJournal, replica: MemoryJournal, replicaId: Text, stops: bool)
    returns (health: Health, failure: Option<Error>)
    requires source != replica
    requires source.Consistent() && E.RowsHeld(source.State()) && replica.Consistent()
    modifies source`outbox, replica
    ensures source.Consistent() && E.RowsHeld(source.State()) && replica.Consistent()
    ensures old(replica.events) <= replica.events
    ensures source.State() == old(source.State()).(outbox := source.outbox)
    ensures forall r :: r != replicaId ==> E.RowsOf(source.outbox, r) == E.RowsOf(old(source.outbox), r)
    ensures E.RowsOf(source.outbox, replicaId).Items <= E.RowsOf(old(source.outbox), replicaId).Items
    ensures forall e :: e in E.RowsOf(old(source.outbox), replicaId).Values ==>
      e in E.RowsOf(source.outbox, replicaId).Values || e in replica.events
    ensures failure.None? ==> E.RowsOf(source.outbox, replicaId) == map[] && health.lag == 0
    ensures AllWaiting(old(source.State()), old(replica.State()), replicaId) && !stops && !Blank(replicaId) ==>
      failure.None? && replica.events == source.events
    ensures stops || Blank(replicaId) ==> source.State() == old(source.State()) && failure.Some?
    ensures E.Sound(old(source.State())) && !stops && !Blank(replicaId) && failure.Some? ==>
      exists e :: FirstRefused(source.State(), replica.State(), replicaId, e, failure)
  {
    hide E.IngestAll, E.RowsHeld, Valid, Indexed, Decide, AllWaiting, Blank, RowsLeft, FirstRefused, E.Ingest;
    health := Health(replica.head, 0);
    var pending := source.PendingOutbox(replicaId);
    if pending.Err? {
      return health, Some(pending.error);
    }
    IngestGrows(replica.State(), pending.value);
    ghost var before := source.State();
    if AllWaiting(before, replica.State(), replicaId) {
      DrainLevels(before, replica.State(), replicaId, pending.value);
      assert pending.value[..|pending.value|] == pending.value;
    }
    var applied, refusal;
    health, applied, refusal := IngestEvents(replica, replica.head, pending.value);
    AckedRows(before, replicaId, pending.value, |applied|, replica.events);
    ghost var n := |applied|;
    E.StopsAtRefusal(old(replica.State()), pending.value);
    TakersAreReplicas(old(replica.State()), pending.value);
    RowsNamed(before, replicaId, pending.value, applied);
    if stops {
      return health, Some(Interrupted);
    }
    var unacked := None;
    if applied != [] {
      unacked := source.AckOutbox(replicaId, applied);
    }
    failure := if refusal.Some? then refusal else unacked;
    if refusal.Some? && (applied == [] || unacked.None?) {
      NothingAcked(before, replicaId, pending.value);
      RefusedIsFirst(before, source.State(), replica.State(), replicaId, pending.value, n, refusal);
    }
  }

  lemma NothingAcked(source: E.Endpoint, replicaId: Text, pending: seq<Event>)
    ensures RowsLeft(source, source, replicaId, pending[..0])
  {
  }

  // -------------------------------------------------------------- promotion

  // Delivering an event twice is delivering it once, down to the answer.
  lemma {:induction false} IngestTwice(ep: E.Endpoint, e: Event)
    requires E.Sound(ep)
    ensures var (after, failure) := E.Ingest(ep, e);
      E.Ingest(after, e) == (after, failure)
  {
    hide Valid;
    E.AppendDataSound(ep, e);
    if E.Ingest(ep, e).1.None? {
      DecideExact(ep.project, E.Ingest(ep, e).0.log, e);
    }
  }

  datatype Delivery = Delivery(endpoint: MemoryJournal, failure: Option<Error>)

  // The journals a promotion only informs: neither of the two endpoints that change roles.
  ghost function Informed(reachable: seq<MemoryJournal>, active: MemoryJournal, candidate: MemoryJournal): set<MemoryJournal> {
    set j | j in reachable && j.endpointId != active.endpointId && j.endpointId != candidate.endpointId
  }

  // Step 4: every informed journal is offered the checkpoint once or more; a refusal stops nobody else.
  method FanOut(active: MemoryJournal, candidate: MemoryJournal, reachable: seq<MemoryJournal>, checkpoint: Event)
    returns (deliveries: seq<Delivery>)
    requires forall j :: j in reachable ==> j.Consistent()
    modifies Informed(reachable, active, candidate)
    ensures forall j :: j in reachable ==> j.Consistent()
    ensures forall j :: j in Informed(reachable, active, candidate) ==>
      j.State() == E.Ingest(old(j.State()), checkpoint).0 && Delivery(j, E.Ingest(old(j.State()), checkpoint).1) in deliveries
    ensures forall d :: d in deliveries ==> d.endpoint in Informed(reachable, active, candidate)
  {
    hide E.Ingest;
    deliveries := [];
    for i := 0 to |reachable|
      invariant forall j :: j in reachable ==> j.Consistent()
      invariant forall j :: j in Informed(reachable[..i], active, candidate) ==>
        j.State() == E.Ingest(old(j.State()), checkpoint).0 && Delivery(j, E.Ingest(old(j.State()), checkpoint).1) in deliveries
      invariant forall j :: j in Informed(reachable, active, candidate) && j !in Informed(reachable[..i], active, candidate) ==>
        j.State() == old(j.State())
      invariant forall d :: d in deliveries ==> d.endpoint in Informed(reachable, active, candidate)
    {
      var replica := reachable[i];
      var more := Informed(reachable[..i + 1], active, candidate);
      if replica.endpointId == candidate.endpointId || replica.endpointId == active.endpointId {
        assert more == Informed(reachable[..i], active, candidate);
        continue;
      }
      assert more == Informed(reachable[..i], active, candidate) + {replica};
      IngestTwice(old(replica.State()), checkpoint);
      var failure := replica.IngestReplica(checkpoint);
      deliveries := deliveries + [Delivery(replica, failure)];
    }
    assert reachable[..|reachable|] == reachable;
  }

  method EnsureFenced(active: MemoryJournal, candidate: Text, request: E.Request, now: Instant) returns (r: Result<P.Promoted>)
    requires active.Consistent()
    modifies active
    ensures active.Consistent()
    ensures (active.State(), r) == P.EnsureFenced(old(active.State()), candidate, request, now)
  {
    hide E.FenceAsReplica, Valid, Indexed;
    if active.role.Active? {
      var fenced := active.FenceAsReplica(request, candidate, [], now);
      r := match fenced case Ok(checkpoint) => Ok(P.Promoted(checkpoint, false)) case Err(error) => Err(error);
    } else {
      var head := active.HeadEvent();
      if head.None? || !head.value.fields.payload.Promotion? || head.value.Key() != Trim(request.key)
         || head.value.fields.payload.candidate != candidate {
        return Err(PromotionSourceNotActive);
      }
      r := Ok(P.Promoted(head.value, true));
    }
  }

  // Steps 2 and 3 over the journals themselves.
  method CatchUpAndFlip(active: MemoryJournal, candidate: MemoryJournal, p: P.Promoted, ids: seq<Text>) returns (failure: Option<Error>)
    requires active != candidate && active.Consistent() && candidate.Consistent()
    modifies candidate
    ensures active.Consistent() && candidate.Consistent()
    ensures var o := P.CatchUpAndFlip(active.State(), old(candidate.State()), p, ids);
      && candidate.State() == o.candidate && active.State() == o.active
      && o.result == (if failure.Some? then Err(failure.value) else Ok(p))
  {
    hide E.Replicate, E.PromoteToActive, Valid, Indexed;
    if candidate.head != p.checkpoint.Cursor() {
      var health;
      health, failure := Replicate(active, candidate);
      if failure.Some? {
        return;
      }
    }
    failure := P.EvaluateConvergence(candidate.head, candidate.headHash, p.checkpoint.Cursor(), p.checkpoint.checksum);
    if failure.Some? {
      return;
    }
    failure := candidate.PromoteToActive(p.checkpoint, ids);
  }

  method Promote(active: MemoryJournal, candidate: MemoryJournal, reachable: seq<MemoryJournal>, request: E.Request, now: Instant)
    returns (r: Result<P.Promoted>, deliveries: seq<Delivery>)
    requires active != candidate && active.Consistent() && candidate.Consistent()
    requires forall j :: j in reachable ==> j.Consistent()
    modifies active, candidate, Informed(reachable, active, candidate)
    ensures active.Consistent() && candidate.Consistent() && forall j :: j in reachable ==> j.Consistent()
    ensures var o := P.Promote(old(active.State()), old(candidate.State()), request, now);
      active.State() == o.active && candidate.State() == o.candidate && r == o.result
    ensures r.Err? ==> forall j :: j in Informed(reachable, active, candidate) ==> j.State() == old(j.State())
    ensures r.Ok? ==> forall j :: j in Informed(reachable, active, candidate) ==>
      && j.State() == E.Ingest(old(j.State()), r.value.checkpoint).0
      && Delivery(j, E.Ingest(old(j.State()), r.value.checkpoint).1) in deliveries
  {
    hide P.EnsureFenced, P.CatchUpAndFlip, E.Ingest, Valid, Indexed, Blank;
    deliveries := [];
    if Blank(request.actor) || Blank(request.command) {
      return Err(PromotionRequestInvalid), [];
    }
    var effective := request.(key := E.PromotionKey(request.key, active.endpointId, candidate.endpointId));
    if active.role.Active? {
      if !candidate.role.Replica? {
        return Err(PromotionCandidateNotReplica), [];
      }
      HeadZero(active);
      HeadZero(candidate);
      if active.head.IsZero() && candidate.head.IsZero() {
        return Err(PromotionEmptyJournals), [];
      }
    }
    r := EnsureFenced(active, candidate.endpointId, effective, now);
    if r.Err? {
      return;
    }
    var failure := CatchUpAndFlip(active, candidate, r.value, request.replicaIds);
    if failure.Some? {
      return Err(failure.value), [];
    }
    deliveries := FanOut(active, candidate, reachable, r.value.checkpoint);
  }

  lemma HeadZero(journal: MemoryJournal)
    requires journal.Consistent()
    ensures journal.head.IsZero() <==> journal.events == []
  {
    if journal.events != [] {
      Linked(journal.projectId, journal.events, |journal.events| - 1);
    }
  }
}
