/** The record tables behind a database journal, and what they say about each project's log and outbox. */
module Tables {
  import opened Events
  import opened Chain
  import opened Keys
  import E = Endpoints

  // One row map per collection; every row holds an encoded event.
  datatype Tables = Tables(events: map<Text, Event>, messages: map<Text, Event>, heads: map<Text, Event>, outbox: map<Text, Event>)

  // commitOneLocked looks at the chain before the idempotency key; the in-memory journal looks at the key first.
  function DecideStored(project: Text, log: seq<Event>, e: Event): Decision {
    if Verify(e).Some? then Refuse(Verify(e).value)
    else if e.fields.projectId != project then Refuse(WrongProject)
    else if HasId(log, e.Id()) then
      if HasSame(log, e) then Replay else Refuse(IdReused)
    else
      match ValidateNext(Head(log), HeadHash(log), e)
      case Some(error) => Refuse(error)
      case None => if HasKey(log, e.Key()) then Refuse(KeyReused) else Commit
  }

  // Both backends accept exactly the same events; only an event refused for two reasons is refused differently.
  lemma {:induction false} BackendsAgree(project: Text, log: seq<Event>, e: Event)
    ensures DecideStored(project, log, e) == Commit <==> Decide(project, log, e) == Commit
    ensures DecideStored(project, log, e) == Replay <==> Decide(project, log, e) == Replay
    ensures DecideStored(project, log, e) != Decide(project, log, e) <==>
      (&& Verify(e).None? && e.fields.projectId == project && !HasId(log, e.Id())
       && HasKey(log, e.Key()) && ValidateNext(Head(log), HeadHash(log), e).Some?)
  {
    if DecideStored(project, log, e).Refuse? && Decide(project, log, e) == Refuse(KeyReused) {
      assert KeyReused != ChecksumChain && KeyReused != SequenceGap && KeyReused != EpochFenced;
    }
  }

  // On every log that is not empty some event is refused differently: a used key two places past the head.
  lemma RefusalsDiffer(project: Text, log: seq<Event>, id: Text) returns (e: Event)
    requires Valid(project, log) && log != [] && !Blank(id) && !HasId(log, id)
    ensures Decide(project, log, e) == Refuse(KeyReused) && DecideStored(project, log, e) == Refuse(SequenceGap)
  {
    Linked(project, log, 0);
    Linked(project, log, |log| - 1);
    var head := Last(log).Cursor();
    var f := log[0].fields.(eventId := id, cursor := Cursor(head.epoch, head.sequence + 2));
    e := Event(f, NoDigest, Sha256(f, NoDigest));
    assert log[0].Key() == e.Key();
  }

  // ------------------------------------------------------- what a table says

  predicate OutboxRow(k: Text, r: Text, e: Event) {
    k == OutboxKey(e.fields.projectId, r, e.Id())
  }

  // Every row sits under the key its content calls for, and the domain rows are the journal rows.
  ghost predicate Keyed(t: Tables) {
    && (forall k :: k in t.events ==> k == EventKey(t.events[k].fields.projectId, t.events[k].Id()))
    && (forall k :: k in t.heads ==> k == HeadKey(t.heads[k].fields.projectId))
    && (forall k :: k in t.outbox ==> exists r :: OutboxRow(k, r, t.outbox[k]))
    && t.messages == t.events
  }

  // One project's event rows are its log.
  ghost predicate EventRows(t: Tables, project: Text, log: seq<Event>) {
    && (forall e :: e in log ==> e.fields.projectId == project && EventKey(project, e.Id()) in t.events && t.events[EventKey(project, e.Id())] == e)
    && (forall k :: k in t.events && t.events[k].fields.projectId == project ==> t.events[k] in log)
  }

  ghost predicate HeadRow(t: Tables, project: Text, log: seq<Event>) {
    if log == [] then HeadKey(project) !in t.heads
    else HeadKey(project) in t.heads && t.heads[HeadKey(project)] == Last(log)
  }

  ghost predicate Stored(t: Tables, project: Text, log: seq<Event>) {
    Valid(project, log) && EventRows(t, project, log) && HeadRow(t, project, log)
  }

  function WaitingIds(t: Tables): set<Text> {
    set k | k in t.outbox :: t.outbox[k].Id()
  }

  // The rows waiting for one replica of one project, by event id.
  function RowsFor(t: Tables, project: Text, replica: Text): map<Text, Event> {
    map id | id in WaitingIds(t) && OutboxKey(project, replica, id) in t.outbox :: t.outbox[OutboxKey(project, replica, id)]
  }

  lemma RowsForHas(t: Tables, project: Text, replica: Text, id: Text)
    requires Keyed(t)
    ensures id in RowsFor(t, project, replica) <==> OutboxKey(project, replica, id) in t.outbox
    ensures id in RowsFor(t, project, replica) ==>
      RowsFor(t, project, replica)[id].Id() == id && RowsFor(t, project, replica)[id].fields.projectId == project
  {
    hide OutboxKey, EventKey, HeadKey;
    var k := OutboxKey(project, replica, id);
    if k in t.outbox {
      var r :| OutboxRow(k, r, t.outbox[k]);
      OutboxKeyInjective(project, replica, id, t.outbox[k].fields.projectId, r, t.outbox[k].Id());
    }
  }

  // --------------------------------------------------------------- one write

  function OutboxKeys(replicas: set<Text>, e: Event): set<Text> {
    set r | r in replicas :: OutboxKey(e.fields.projectId, r, e.Id())
  }

  function AddOutbox(outbox: map<Text, Event>, replicas: set<Text>, e: Event): map<Text, Event> {
    outbox + map k | k in OutboxKeys(replicas, e) :: e
  }

  lemma AddOutboxOneMore(outbox: map<Text, Event>, done: set<Text>, r: Text, e: Event)
    ensures AddOutbox(outbox, done + {r}, e) == AddOutbox(outbox, done, e)[OutboxKey(e.fields.projectId, r, e.Id()) := e]
    ensures AddOutbox(outbox, {}, e) == outbox
  {
    hide OutboxKey, EventKey, HeadKey;
    var k := OutboxKey(e.fields.projectId, r, e.Id());
    assert OutboxKeys(done + {r}, e) == OutboxKeys(done, e) + {k} by {
      forall x | x in OutboxKeys(done, e) + {k} ensures x in OutboxKeys(done + {r}, e) {
        if x == k {
          assert r in done + {r};
        } else {
          var q :| q in done && x == OutboxKey(e.fields.projectId, q, e.Id());
          assert q in done + {r};
        }
      }
    }
    assert OutboxKeys({}, e) == {};
  }

  // What committing e writes, apart from the head row.
  function WriteRows(t: Tables, replicas: set<Text>, e: Event): Tables {
    var k := EventKey(e.fields.projectId, e.Id());
    t.(events := t.events[k := e], messages := t.messages[k := e], outbox := AddOutbox(t.outbox, replicas, e))
  }

  lemma WriteKeepsKeys(t: Tables, replicas: set<Text>, e: Event)
    requires Keyed(t)
    ensures Keyed(WriteRows(t, replicas, e))
  {
    hide OutboxKey, EventKey, HeadKey;
    var after := WriteRows(t, replicas, e);
    forall k | k in after.outbox ensures exists r :: OutboxRow(k, r, after.outbox[k]) {
      if k in OutboxKeys(replicas, e) {
        var r :| r in replicas && k == OutboxKey(e.fields.projectId, r, e.Id());
        assert OutboxRow(k, r, after.outbox[k]);
      } else {
        var r :| OutboxRow(k, r, t.outbox[k]);
        assert OutboxRow(k, r, after.outbox[k]);
      }
    }
  }

  // The event rows of the committing project grow by one; every other project's stay as they were.
  lemma WriteEventRows(t: Tables, replicas: set<Text>, e: Event, project: Text, log: seq<Event>)
    requires Keyed(t) && EventRows(t, project, log)
    requires project == e.fields.projectId ==> !HasId(log, e.Id())
    ensures EventRows(WriteRows(t, replicas, e), project, if project == e.fields.projectId then log + [e] else log)
  {
    hide OutboxKey, EventKey, HeadKey;
    var after := WriteRows(t, replicas, e);
    forall d | d in log ensures EventKey(project, d.Id()) in after.events && after.events[EventKey(project, d.Id())] == d {
      MemberHasId(log, d);
      if EventKey(project, d.Id()) == EventKey(e.fields.projectId, e.Id()) {
        EventKeyInjective(project, d.Id(), e.fields.projectId, e.Id());
      }
    }
  }

  predicate Adds(replicas: set<Text>, e: Event, project: Text, r: Text) {
    project == e.fields.projectId && r in replicas
  }

  lemma WriteOutboxRow(t: Tables, replicas: set<Text>, e: Event, project: Text, r: Text, id: Text)
    requires Keyed(t)
    ensures var before, after := RowsFor(t, project, r), RowsFor(WriteRows(t, replicas, e), project, r);
      && (id in after <==> id in before || (Adds(replicas, e, project, r) && id == e.Id()))
      && (id in after ==> after[id] == if Adds(replicas, e, project, r) && id == e.Id() then e else before[id])
  {
    hide OutboxKey, EventKey, HeadKey, OutboxKeys, Keyed;
    var after := WriteRows(t, replicas, e);
    WriteKeepsKeys(t, replicas, e);
    RowsForHas(t, project, r, id);
    RowsForHas(after, project, r, id);
    KeyOfWrite(replicas, e, project, r, id);
  }

  lemma WriteOutboxRows(t: Tables, replicas: set<Text>, e: Event, project: Text, r: Text)
    requires Keyed(t)
    ensures RowsFor(WriteRows(t, replicas, e), project, r) ==
      if Adds(replicas, e, project, r) then RowsFor(t, project, r)[e.Id() := e] else RowsFor(t, project, r)
  {
    hide RowsFor, WriteRows, Keyed, Adds;
    var before, after := RowsFor(t, project, r), RowsFor(WriteRows(t, replicas, e), project, r);
    forall id ensures id in after <==> id in before || (Adds(replicas, e, project, r) && id == e.Id())
      ensures id in after ==> after[id] == if Adds(replicas, e, project, r) && id == e.Id() then e else before[id] {
      WriteOutboxRow(t, replicas, e, project, r, id);
    }
  }

  lemma KeyOfWrite(replicas: set<Text>, e: Event, project: Text, r: Text, id: Text)
    ensures OutboxKey(project, r, id) in OutboxKeys(replicas, e) <==> project == e.fields.projectId && r in replicas && id == e.Id()
  {
    hide OutboxKey, EventKey, HeadKey;
    if OutboxKey(project, r, id) in OutboxKeys(replicas, e) {
      var q :| q in replicas && OutboxKey(project, r, id) == OutboxKey(e.fields.projectId, q, e.Id());
      OutboxKeyInjective(project, r, id, e.fields.projectId, q, e.Id());
    }
  }

  // ---------------------------------------------------------- heads and acks

  function WriteHead(t: Tables, e: Event): Tables {
    t.(heads := t.heads[HeadKey(e.fields.projectId) := e])
  }

  lemma WriteHeadRow(t: Tables, e: Event, project: Text, log: seq<Event>)
    requires Keyed(t)
    requires project == e.fields.projectId ==> log != [] && Last(log) == e
    requires project != e.fields.projectId ==> HeadRow(t, project, log)
    ensures Keyed(WriteHead(t, e)) && HeadRow(WriteHead(t, e), project, log)
  {
    hide OutboxKey, EventKey, HeadKey;
    if HeadKey(project) == HeadKey(e.fields.projectId) {
      HeadKeyInjective(project, e.fields.projectId);
    }
  }

  function AckKeys(project: Text, replica: Text, ids: set<Text>): set<Text> {
    set id | id in ids :: OutboxKey(project, replica, id)
  }

  function DropRows(t: Tables, project: Text, replica: Text, ids: set<Text>): Tables {
    t.(outbox := t.outbox - AckKeys(project, replica, ids))
  }

  lemma DropKeepsKeys(t: Tables, project: Text, replica: Text, ids: set<Text>)
    requires Keyed(t)
    ensures Keyed(DropRows(t, project, replica, ids))
  {
    hide OutboxKey, EventKey, HeadKey;
    var after := DropRows(t, project, replica, ids);
    forall k | k in after.outbox ensures exists r :: OutboxRow(k, r, after.outbox[k]) {
      var r :| OutboxRow(k, r, t.outbox[k]);
      assert OutboxRow(k, r, after.outbox[k]);
    }
  }

  // Acknowledging removes exactly the named rows of exactly that replica of that project.
  lemma DropOutboxRows(t: Tables, project: Text, replica: Text, ids: set<Text>, q: Text, r: Text)
    requires Keyed(t)
    ensures RowsFor(DropRows(t, project, replica, ids), q, r) ==
      if q == project && r == replica then RowsFor(t, q, r) - ids else RowsFor(t, q, r)
  {
    hide OutboxKey, EventKey, HeadKey;
    var after := DropRows(t, project, replica, ids);
    DropKeepsKeys(t, project, replica, ids);
    forall id ensures id in RowsFor(after, q, r) <==> id in RowsFor(t, q, r) && !(q == project && r == replica && id in ids) {
      RowsForHas(t, q, r, id);
      RowsForHas(after, q, r, id);
      if OutboxKey(q, r, id) in AckKeys(project, replica, ids) {
        var d :| d in ids && OutboxKey(q, r, id) == OutboxKey(project, replica, d);
        OutboxKeyInjective(q, r, id, project, replica, d);
      }
    }
  }

  // The prefix scan sees exactly the rows waiting for that replica of that project.
  lemma ScanIsExact(t: Tables, project: Text, replica: Text, k: Text)
    requires Keyed(t) && k in t.outbox
    ensures OutboxKeyPrefix(project, replica) <= k <==>
      t.outbox[k].Id() in RowsFor(t, project, replica) && k == OutboxKey(project, replica, t.outbox[k].Id())
  {
    var e := t.outbox[k];
    var r :| OutboxRow(k, r, e);
    PrefixIsExact(project, replica, e.fields.projectId, r, e.Id());
    RowsForHas(t, project, replica, e.Id());
  }
}
