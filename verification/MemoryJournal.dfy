/** The in-memory journal: fields updated in place, each operation proved against its effect on the endpoint value. */
module MemoryJournals {
  import opened Events
  import opened Chain
  import E = Endpoints
  import S = Sorting

  function EventCursor(e: Event): Cursor {
    e.Cursor()
  }

  datatype Options = Options(projectId: Text, endpointId: Text, role: Role, epoch: int, replicaIds: seq<Text>)

  predicate ValidOptions(o: Options) {
    !Blank(o.projectId) && !Blank(o.endpointId) && o.epoch >= 1 && E.ValidReplicaIds(o.replicaIds)
  }

  // A journal as constructed: no events, and an empty outbox per configured replica.
  function Fresh(o: Options): E.Endpoint {
    E.Endpoint(o.endpointId, o.projectId, o.role, o.epoch, [], E.SetOf(o.replicaIds), map r | r in E.SetOf(o.replicaIds) :: map[])
  }

  lemma AddRowsOneMore(outbox: E.Rows, done: set<Text>, r: Text, e: Event)
    ensures E.AddRows(outbox, done + {r}, e)
         == E.AddRows(outbox, done, e)[r := E.RowsOf(E.AddRows(outbox, done, e), r)[e.Id() := e]]
  {
    var before, after := E.AddRows(outbox, done, e), E.AddRows(outbox, done + {r}, e);
    assert after[r] == E.RowsOf(outbox, r)[e.Id() := e] == E.RowsOf(before, r)[e.Id() := e];
    assert after.Keys == before.Keys + {r};
    assert forall q :: q in before && q != r ==> after[q] == before[q];
  }

  lemma ConfiguredOneMore(outbox: E.Rows, done: set<Text>, r: Text)
    ensures var before := E.Configured(outbox, done);
      E.Configured(outbox, done + {r}) == if r in before then before else before[r := map[]]
  {
    var before, after := E.Configured(outbox, done), E.Configured(outbox, done + {r});
    assert after.Keys == before.Keys + {r};
  }

  lemma AckOneMore(ep: E.Endpoint, replica: Text, done: set<Text>, id: Text)
    ensures E.AckOutbox(ep, replica, {}) == ep
    ensures E.AckOutbox(E.AckOutbox(ep, replica, done), replica, {id}) == E.AckOutbox(ep, replica, done + {id})
  {
    if replica in ep.outbox {
      assert ep.outbox[replica] - {} == ep.outbox[replica];
      assert ep.outbox[replica := ep.outbox[replica]] == ep.outbox;
      assert ep.outbox[replica] - done - {id} == ep.outbox[replica] - (done + {id});
    }
  }

  // The two indexes say exactly what the log says.
  ghost predicate Indexed(log: seq<Event>, byId: map<Text, Event>, byKey: map<Text, Text>) {
    && (forall e :: e in log ==> e.Id() in byId && byId[e.Id()] == e)
    && (forall id :: id in byId ==> byId[id] in log && byId[id].Id() == id)
    && (forall e :: e in log ==> e.Key() in byKey)
    && (forall key :: key in byKey ==> HasKey(log, key))
  }

  lemma IndexedExtend(log: seq<Event>, byId: map<Text, Event>, byKey: map<Text, Text>, e: Event)
    requires Indexed(log, byId, byKey) && e.Id() !in byId
    ensures Indexed(log + [e], byId[e.Id() := e], byKey[e.Key() := e.Id()])
  {
    forall key | key in byKey[e.Key() := e.Id()] ensures HasKey(log + [e], key) {
      if key == e.Key() {
        assert (log + [e])[|log|].Key() == key;
      } else {
        var i :| 0 <= i < |log| && log[i].Key() == key;
        assert (log + [e])[i].Key() == key;
      }
    }
  }

  // Looking an event up in the indexes answers what searching the log would.
  lemma IndexesDecide(log: seq<Event>, byId: map<Text, Event>, byKey: map<Text, Text>, event: Event)
    requires Indexed(log, byId, byKey)
    ensures event.Id() in byId <==> HasId(log, event.Id())
    ensures event.Id() in byId ==> (byId[event.Id()].checksum == event.checksum <==> HasSame(log, event))
    ensures event.Key() in byKey <==> HasKey(log, event.Key())
  {
    if event.Id() in byId {
      var i :| 0 <= i < |log| && log[i] == byId[event.Id()];
      assert log[i].Id() == event.Id();
    }
    if HasKey(log, event.Key()) {
      var i :| 0 <= i < |log| && log[i].Key() == event.Key();
      assert log[i] in log;
    }
    if HasId(log, event.Id()) {
      var i :| 0 <= i < |log| && log[i].Id() == event.Id();
      assert log[i] in log;
    }
  }

  class MemoryJournal {
    const projectId: Text
    const endpointId: Text
    var role: Role
    var epoch: int
    var events: seq<Event>
    var byId: map<Text, Event>
    var byKey: map<Text, Text>
    var head: Cursor
    var headHash: Digest
    var replicaIds: seq<Text>
    var outbox: E.Rows

    // The indexes and the cached head say nothing but what the log says, and the log is valid.
    ghost predicate Consistent()
      reads this
    {
      && Valid(projectId, events)
      && head == Head(events) && headHash == HeadHash(events)
      && Indexed(events, byId, byKey)
    }

    ghost function State(): E.Endpoint
      reads this
    {
      E.Endpoint(endpointId, projectId, role, epoch, events, E.SetOf(replicaIds), outbox)
    }

    constructor (o: Options)
      requires ValidOptions(o)
      ensures Consistent()
      ensures State() == Fresh(o)
    {
      projectId, endpointId, role, epoch := o.projectId, o.endpointId, o.role, o.epoch;
      events, byId, byKey := [], map[], map[];
      head, headHash := ZERO, NoDigest;
      replicaIds := o.replicaIds;
      outbox := map r | r in E.SetOf(o.replicaIds) :: map[];
    }

    method AppendData(event: Event) returns (failure: Option<Error>)
      requires Consistent()
      modifies this`events, this`byId, this`byKey, this`head, this`headHash, this`outbox
      ensures Consistent()
      ensures (State(), failure) == E.AppendData(old(State()), event)
    {
      hide Decide, Valid, Indexed, Head, HeadHash;
      var decision := Judge(event);
      match decision {
        case Commit =>
          Store(event);
          failure := None;
        case Replay => failure := None;
        case Refuse(error) => failure := Some(error);
      }
    }

    // The checks in the order the journal makes them, against its indexes and its cached head.
    method Judge(event: Event) returns (decision: Decision)
      requires Consistent()
      ensures decision == Decide(projectId, events, event)
      ensures decision.Commit? ==> event.Id() !in byId
    {
      hide Valid, Indexed, Verify, ValidateNext;
      IndexesDecide(events, byId, byKey, event);
      var invalid := Verify(event);
      if invalid.Some? {
        return Refuse(invalid.value);
      }
      if event.fields.projectId != projectId {
        return Refuse(WrongProject);
      }
      if event.Id() in byId {
        return if byId[event.Id()].checksum != event.checksum then Refuse(IdReused) else Replay;
      }
      if event.Key() in byKey {
        return Refuse(KeyReused);
      }
      var gap := ValidateNext(head, headHash, event);
      decision := if gap.Some? then Refuse(gap.value) else Commit;
    }

    method Store(event: Event)
      requires Consistent() && Decide(projectId, events, event) == Commit && event.Id() !in byId
      modifies this`events, this`byId, this`byKey, this`head, this`headHash, this`outbox
      ensures Consistent()
      ensures events == old(events) + [event]
      ensures outbox == E.AddRows(old(outbox), E.SetOf(replicaIds), event)
    {
      hide Decide;
      ValidExtend(projectId, events, event);
      IndexedExtend(events, byId, byKey, event);
      events := events + [event];
      byId := byId[event.Id() := event];
      byKey := byKey[event.Key() := event.Id()];
      head, headHash := event.Cursor(), event.checksum;
      assert Last(events) == event;
      FanOut(event);
    }

    // One outbox row per configured replica.
    method FanOut(event: Event)
      modifies this`outbox
      ensures outbox == E.AddRows(old(outbox), E.SetOf(replicaIds), event)
    {
      assert E.AddRows(outbox, {}, event) == outbox;
      for k := 0 to |replicaIds|
        invariant outbox == E.AddRows(old(outbox), E.SetOf(replicaIds[..k]), event)
      {
        var r := replicaIds[k];
        AddRowsOneMore(old(outbox), E.SetOf(replicaIds[..k]), r, event);
        assert E.SetOf(replicaIds[..k + 1]) == E.SetOf(replicaIds[..k]) + {r};
        outbox := outbox[r := E.RowsOf(outbox, r)[event.Id() := event]];
      }
      assert replicaIds[..|replicaIds|] == replicaIds;
    }

    method Append(event: Event) returns (failure: Option<Error>)
      requires Consistent()
      modifies this`events, this`byId, this`byKey, this`head, this`headHash, this`outbox
      ensures Consistent()
      ensures (State(), failure) == E.Append(old(State()), event)
    {
      if !role.Active? || event.Cursor().epoch != epoch {
        return Some(RoleFenced);
      }
      failure := AppendData(event);
    }

    method IngestReplica(event: Event) returns (failure: Option<Error>)
      requires Consistent()
      modifies this`events, this`byId, this`byKey, this`head, this`headHash, this`outbox
      ensures Consistent()
      ensures (State(), failure) == E.Ingest(old(State()), event)
    {
      if !role.Replica? {
        return Some(RoleFenced);
      }
      failure := AppendData(event);
    }

    method CommitBatch(window: seq<Event>) returns (results: seq<Option<Error>>)
      requires Consistent()
      modifies this`events, this`byId, this`byKey, this`head, this`headHash, this`outbox
      ensures Consistent()
      ensures (State(), results) == E.CommitWindow(old(State()), window)
    {
      results := [];
      for i := 0 to |window|
        invariant Consistent()
        invariant (State(), results) == E.CommitWindow(old(State()), window[..i])
      {
        var failure := AppendData(window[i]);
        results := results + [failure];
        assert Init(window[..i + 1]) == window[..i] && Last(window[..i + 1]) == window[i];
      }
      assert window[..|window|] == window;
    }

    // What the batcher still has pending is committed first, at the old epoch and before the head is read.
    method FenceAsReplica(request: E.Request, candidate: Text, pending: seq<Event>, now: Instant) returns (r: Result<Event>)
      requires Consistent()
      modifies this
      ensures Consistent()
      ensures var flushed := if old(role).Active? then E.CommitWindow(old(State()), pending).0 else old(State());
        (State(), r) == E.FenceAsReplica(flushed, request, candidate, HeadHash(flushed.log), now)
    {
      hide Decide, Valid, Indexed, E.BuildCheckpoint, E.AppendData, E.CommitWindow;
      if !role.Active? {
        return Err(FenceSourceNotActive);
      }
      var _ := CommitBatch(pending);
      r := E.BuildCheckpoint(projectId, endpointId, candidate, request, headHash, epoch + 1, now);
      if r.Err? {
        return;
      }
      E.RefusedUnchanged(State(), r.value);
      var failure := AppendData(r.value);
      if failure.Some? {
        return Err(failure.value);
      }
      role, epoch := Replica, r.value.Cursor().epoch;
    }

    method PromoteToActive(checkpoint: Event, ids: seq<Text>) returns (failure: Option<Error>)
      requires Consistent()
      modifies this`role, this`epoch, this`replicaIds, this`outbox
      ensures Consistent()
      ensures (State(), failure) == E.PromoteToActive(old(State()), checkpoint, ids)
    {
      if role.Active? {
        if epoch != checkpoint.Cursor().epoch {
          return Some(PromoteTargetWrongEpoch);
        }
      } else {
        if head != checkpoint.Cursor() || headHash != checkpoint.checksum {
          return Some(PromotionNotConverged);
        }
        role, epoch := Active, checkpoint.Cursor().epoch;
      }
      if !E.ValidReplicaIds(ids) {
        return Some(InvalidReplicaIds);
      }
      ConfigureReplicas(ids);
      failure := None;
    }

    // The new replica set; a replica without an outbox gets an empty one.
    method ConfigureReplicas(ids: seq<Text>)
      modifies this`replicaIds, this`outbox
      ensures replicaIds == ids
      ensures outbox == E.Configured(old(outbox), E.SetOf(ids))
    {
      replicaIds := ids;
      assert E.Configured(outbox, E.SetOf(ids[..0])) == outbox;
      for k := 0 to |ids|
        invariant replicaIds == ids
        invariant outbox == E.Configured(old(outbox), E.SetOf(ids[..k]))
      {
        ConfiguredOneMore(old(outbox), E.SetOf(ids[..k]), ids[k]);
        assert E.SetOf(ids[..k + 1]) == E.SetOf(ids[..k]) + {ids[k]};
        if ids[k] !in outbox {
          outbox := outbox[ids[k] := map[]];
        }
      }
      assert ids[..|ids|] == ids;
    }

    // The undelivered rows of one replica, in cursor order.
    method PendingOutbox(replica: Text) returns (r: Result<seq<Event>>)
      ensures Blank(replica) ==> r == Err(ReplicaIdRequired)
      ensures !Blank(replica) ==> r.Ok? && S.Sorted(r.value, EventCursor)
      ensures !Blank(replica) ==> forall e :: e in r.value <==> e in E.RowsOf(outbox, replica).Values
    {
      if Blank(replica) {
        return Err(ReplicaIdRequired);
      }
      var pending := E.RowsOf(outbox, replica);
      var collected: seq<Event> := [];
      var ids := pending.Keys;
      while ids != {}
        invariant ids <= pending.Keys
        invariant forall e :: e in collected <==> exists id :: id in pending && id !in ids && pending[id] == e
      {
        var id :| id in ids;
        collected := collected + [pending[id]];
        ids := ids - {id};
      }
      S.SortFacts(collected, EventCursor);
      var sorted := S.Sort(collected, EventCursor);
      forall e ensures e in sorted <==> e in pending.Values {
        assert e in sorted <==> e in multiset(sorted);
        assert e in collected <==> e in multiset(collected);
      }
      r := Ok(sorted);
    }

    method AckOutbox(replica: Text, eventIds: seq<Text>) returns (failure: Option<Error>)
      requires Consistent()
      modifies this`outbox
      ensures Consistent()
      ensures failure.None? <==> !Blank(replica) && forall i :: 0 <= i < |eventIds| ==> !Blank(eventIds[i])
      ensures failure.Some? ==> State() == old(State())
      ensures failure.None? ==> State() == E.AckOutbox(old(State()), replica, E.SetOf(eventIds))
    {
      if Blank(replica) {
        return Some(ReplicaIdRequired);
      }
      for k := 0 to |eventIds|
        invariant forall i :: 0 <= i < k ==> !Blank(eventIds[i])
      {
        if Blank(eventIds[k]) {
          return Some(EventIdRequired);
        }
      }
      failure := None;
      AckOneMore(State(), replica, {}, []);
      assert E.SetOf(eventIds[..0]) == {};
      for k := 0 to |eventIds|
        invariant State() == E.AckOutbox(old(State()), replica, E.SetOf(eventIds[..k]))
      {
        AckOneMore(old(State()), replica, E.SetOf(eventIds[..k]), eventIds[k]);
        if replica in outbox {
          outbox := outbox[replica := outbox[replica] - {eventIds[k]}];
        }
        assert E.SetOf(eventIds[..k + 1]) == E.SetOf(eventIds[..k]) + {eventIds[k]};
      }
      assert eventIds[..|eventIds|] == eventIds;
    }

    method After(cursor: Cursor) returns (r: seq<Event>)
      ensures r == E.After(events, cursor)
    {
      r := [];
      for i := 0 to |events|
        invariant r == E.After(events[..i], cursor)
      {
        assert Init(events[..i + 1]) == events[..i] && Last(events[..i + 1]) == events[i];
        if events[i].Cursor().epoch > cursor.epoch
           || (events[i].Cursor().epoch == cursor.epoch && events[i].Cursor().sequence > cursor.sequence) {
          r := r + [events[i]];
        }
      }
      assert events[..|events|] == events;
    }

    method HeadEvent() returns (r: Option<Event>)
      ensures r == if events == [] then None else Some(Last(events))
    {
      r := if events == [] then None else Some(events[|events| - 1]);
    }
  }

  // Construction refuses what the options do not satisfy.
  method NewMemoryJournal(o: Options) returns (journal: MemoryJournal?, failure: Option<Error>)
    ensures failure.None? <==> ValidOptions(o)
    ensures failure.None? ==> journal != null && fresh(journal) && journal.Consistent()
    ensures failure.None? ==> journal.State() == Fresh(o)
  {
    if !ValidOptions(o) {
      return null, Some(InvalidArgument);
    }
    journal := new MemoryJournal(o);
    failure := None;
  }
}
