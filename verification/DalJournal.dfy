/** The journal over a database: every decision inside one transaction over tables that many projects share. */
module DalJournals {
  import opened Events
  import opened Chain
  import opened Keys
  import opened Tables
  import E = Endpoints
  import S = Sorting

  function LogOf(logs: map<Text, seq<Event>>, project: Text): seq<Event> {
    if project in logs then logs[project] else []
  }

  class Database {
    var tables: Tables
    ghost var logs: map<Text, seq<Event>> // what each project's rows amount to

    ghost predicate Consistent()
      reads this
    {
      Keyed(tables) && forall p: Text :: Stored(tables, p, LogOf(logs, p))
    }

    constructor ()
      ensures Consistent() && logs == map[] && tables == Tables(map[], map[], map[], map[])
    {
      tables, logs := Tables(map[], map[], map[], map[]), map[];
    }
  }

  // Between the start of a transaction and its end: the tables as this project's endpoint would have left them,
  // with every other project and the head rows untouched.
  ghost predicate Tracks(tx: Tables, base: Tables, logs: map<Text, seq<Event>>, ep: E.Endpoint) {
    && Keyed(tx) && tx.heads == base.heads
    && E.Sound(ep) && EventRows(tx, ep.project, ep.log)
    && (forall r: Text :: RowsFor(tx, ep.project, r) == E.RowsOf(ep.outbox, r))
    && (forall q: Text :: q != ep.project ==> EventRows(tx, q, LogOf(logs, q)))
    && (forall q: Text, r: Text :: q != ep.project ==> RowsFor(tx, q, r) == RowsFor(base, q, r))
  }

  lemma AddRowsOf(outbox: E.Rows, replicas: set<Text>, e: Event, r: Text)
    ensures E.RowsOf(E.AddRows(outbox, replicas, e), r) ==
      if r in replicas then E.RowsOf(outbox, r)[e.Id() := e] else E.RowsOf(outbox, r)
  {
  }

  // Writing a committed event's rows is what the endpoint does when it appends the event.
  lemma TracksCommit(tx: Tables, base: Tables, logs: map<Text, seq<Event>>, ep: E.Endpoint, e: Event)
    requires Tracks(tx, base, logs, ep) && DecideStored(ep.project, ep.log, e) == Commit
    ensures Tracks(WriteRows(tx, ep.replicas, e), base, logs, E.AppendData(ep, e).0)
    ensures E.AppendData(ep, e).0.log == ep.log + [e] && E.AppendData(ep, e).1.None?
  {
    BackendsAgree(ep.project, ep.log, e);
    CommitOf(ep.project, ep.log, e);
    hide DecideStored, Decide, EventRows, RowsFor, Keyed, WriteRows;
    var after, grown := WriteRows(tx, ep.replicas, e), E.AppendData(ep, e).0;
    ValidExtend(ep.project, ep.log, e);
    WriteKeepsKeys(tx, ep.replicas, e);
    WriteEventRows(tx, ep.replicas, e, ep.project, ep.log);
    forall r: Text ensures RowsFor(after, ep.project, r) == E.RowsOf(grown.outbox, r) {
      WriteOutboxRows(tx, ep.replicas, e, ep.project, r);
      AddRowsOf(ep.outbox, ep.replicas, e, r);
    }
    forall q: Text | q != ep.project ensures EventRows(after, q, LogOf(logs, q)) {
      WriteEventRows(tx, ep.replicas, e, q, LogOf(logs, q));
    }
    forall q: Text, r: Text | q != ep.project ensures RowsFor(after, q, r) == RowsFor(base, q, r) {
      WriteOutboxRows(tx, ep.replicas, e, q, r);
    }
    assert after.heads == tx.heads by { WriteLeavesHeads(tx, ep.replicas, e); }
  }

  lemma WriteLeavesHeads(t: Tables, replicas: set<Text>, e: Event)
    ensures WriteRows(t, replicas, e).heads == t.heads
  {
  }

  lemma CommitOf(project: Text, log: seq<Event>, e: Event)
    requires Decide(project, log, e) == Commit
    ensures e.fields.projectId == project && !HasId(log, e.Id())
  {
  }

  // At the end of the transaction the head row says what was appended last, and the database is whole again.
  lemma TracksFinish(tx: Tables, base: Tables, logs: map<Text, seq<Event>>, ep: E.Endpoint)
    requires Tracks(tx, base, logs, ep) && ep.log != [] && Last(ep.log).fields.projectId == ep.project
    requires forall p: Text :: Stored(base, p, LogOf(logs, p))
    ensures var after, logs' := WriteHead(tx, Last(ep.log)), logs[ep.project := ep.log];
      && Keyed(after) && (forall p: Text :: Stored(after, p, LogOf(logs', p)))
      && after.outbox == tx.outbox
  {
    hide RowsFor, Stored, Tracks, EventRows;
    var after, logs' := WriteHead(tx, Last(ep.log)), logs[ep.project := ep.log];
    FinishedKeyed(tx, base, logs, ep);
    forall p: Text ensures Stored(after, p, LogOf(logs', p)) {
      assert Stored(base, p, LogOf(logs, p));
      if p == ep.project {
        FinishedHere(tx, base, logs, ep);
      } else {
        FinishedElsewhere(tx, base, logs, ep, p);
      }
    }
  }

  lemma FinishedKeyed(tx: Tables, base: Tables, logs: map<Text, seq<Event>>, ep: E.Endpoint)
    requires Tracks(tx, base, logs, ep) && ep.log != [] && Last(ep.log).fields.projectId == ep.project
    ensures Keyed(WriteHead(tx, Last(ep.log)))
  {
    hide HeadKey, RowsFor, Valid, EventRows;
    WriteHeadRow(tx, Last(ep.log), ep.project, ep.log);
  }

  lemma FinishedHere(tx: Tables, base: Tables, logs: map<Text, seq<Event>>, ep: E.Endpoint)
    requires Tracks(tx, base, logs, ep) && ep.log != [] && Last(ep.log).fields.projectId == ep.project
    ensures Stored(WriteHead(tx, Last(ep.log)), ep.project, ep.log)
  {
    hide HeadKey, RowsFor, Valid, EventRows;
    WriteHeadRow(tx, Last(ep.log), ep.project, ep.log);
    SameEventRows(tx, WriteHead(tx, Last(ep.log)), ep.project, ep.log);
  }

  lemma FinishedElsewhere(tx: Tables, base: Tables, logs: map<Text, seq<Event>>, ep: E.Endpoint, p: Text)
    requires Tracks(tx, base, logs, ep) && ep.log != [] && Last(ep.log).fields.projectId == ep.project
    requires p != ep.project && Stored(base, p, LogOf(logs, p))
    ensures Stored(WriteHead(tx, Last(ep.log)), p, LogOf(logs, p))
  {
    hide HeadKey, RowsFor, Valid, EventRows;
    WriteHeadRow(tx, Last(ep.log), p, LogOf(logs, p));
    SameEventRows(tx, WriteHead(tx, Last(ep.log)), p, LogOf(logs, p));
  }

  lemma SameEventRows(t: Tables, u: Tables, project: Text, log: seq<Event>)
    requires t.events == u.events && EventRows(t, project, log)
    ensures EventRows(u, project, log)
  {
  }

  // At its start a transaction tracks the endpoint as it is.
  lemma TracksStart(base: Tables, logs: map<Text, seq<Event>>, ep: E.Endpoint)
    requires Keyed(base) && forall p: Text :: Stored(base, p, LogOf(logs, p))
    requires ep.log == LogOf(logs, ep.project) && forall r: Text :: RowsFor(base, ep.project, r) == E.RowsOf(ep.outbox, r)
    ensures Tracks(base, base, logs, ep)
  {
    hide Keyed, RowsFor, EventRows, HeadRow, Valid;
    assert Stored(base, ep.project, LogOf(logs, ep.project));
    forall q: Text ensures EventRows(base, q, LogOf(logs, q)) {
      assert Stored(base, q, LogOf(logs, q));
    }
  }

  lemma RefusedStays(ep: E.Endpoint, e: Event)
    ensures DecideStored(ep.project, ep.log, e) != Commit ==> E.AppendData(ep, e).0 == ep
    ensures DecideStored(ep.project, ep.log, e).Refuse? <==> E.AppendData(ep, e).1.Some?
    ensures DecideStored(ep.project, ep.log, e) != Refuse(StorageFailure)
    ensures E.AppendData(ep, e).0 == ep.(log := E.AppendData(ep, e).0.log, outbox := E.AppendData(ep, e).0.outbox)
  {
    BackendsAgree(ep.project, ep.log, e);
  }

  lemma CommittedIsHere(ep: E.Endpoint, e: Event)
    requires DecideStored(ep.project, ep.log, e) == Commit
    ensures e.fields.projectId == ep.project
  {
  }

  lemma SameOutboxSameRows(t: Tables, u: Tables, project: Text, r: Text)
    requires t.outbox == u.outbox
    ensures RowsFor(t, project, r) == RowsFor(u, project, r)
  {
    assert WaitingIds(t) == WaitingIds(u);
  }

  // ------------------------------------------------------------------ reads

  method LoadHead(t: Tables, project: Text, ghost log: seq<Event>) returns (head: Cursor, hash: Digest, failure: Option<Error>)
    requires Keyed(t) && HeadRow(t, project, log)
    ensures failure.None? && head == Head(log) && hash == HeadHash(log)
  {
    hide HeadKey;
    var matching: seq<Event> := [];
    var left := t.heads.Keys;
    while left != {}
      invariant left <= t.heads.Keys
      invariant matching == if HeadKey(project) in t.heads && HeadKey(project) !in left then [t.heads[HeadKey(project)]] else []
    {
      var k :| k in left;
      if t.heads[k].fields.projectId == project {
        matching := matching + [t.heads[k]];
      } else if k == HeadKey(project) {
        HeadKeyInjective(project, t.heads[k].fields.projectId);
      }
      left := left - {k};
    }
    if |matching| == 0 {
      return ZERO, NoDigest, None;
    }
    head, hash, failure := matching[0].Cursor(), matching[0].checksum, None;
  }

  lemma StoredById(t: Tables, project: Text, log: seq<Event>, id: Text)
    requires EventRows(t, project, log)
    ensures HasId(log, id) ==> exists k :: k in t.events && t.events[k].fields.projectId == project && t.events[k].Id() == id
  {
    hide EventKey;
    if HasId(log, id) {
      var i :| 0 <= i < |log| && log[i].Id() == id;
      assert t.events[EventKey(project, id)] == log[i];
    }
  }

  lemma StoredByKey(t: Tables, project: Text, log: seq<Event>, key: Text)
    requires EventRows(t, project, log)
    ensures HasKey(log, key) ==> exists k :: k in t.events && t.events[k].fields.projectId == project && t.events[k].Key() == key
  {
    hide EventKey;
    if HasKey(log, key) {
      var i :| 0 <= i < |log| && log[i].Key() == key;
      assert t.events[EventKey(project, log[i].Id())] == log[i];
    }
  }

  method LoadEvent(t: Tables, project: Text, id: Text, ghost log: seq<Event>) returns (found: Option<Event>)
    requires EventRows(t, project, log)
    ensures found.None? <==> !HasId(log, id)
    ensures found.Some? ==> found.value in log && found.value.Id() == id
  {
    hide EventKey;
    var left := t.events.Keys;
    while left != {}
      invariant left <= t.events.Keys
      invariant forall k :: k in t.events && k !in left ==> !(t.events[k].fields.projectId == project && t.events[k].Id() == id)
    {
      var k :| k in left;
      if t.events[k].fields.projectId == project && t.events[k].Id() == id {
        return Some(t.events[k]);
      }
      left := left - {k};
    }
    StoredById(t, project, log, id);
    found := None;
  }

  method LoadIdempotencyKey(t: Tables, project: Text, key: Text, ghost log: seq<Event>) returns (owner: Option<Text>)
    requires EventRows(t, project, log)
    ensures owner.Some? <==> HasKey(log, key)
  {
    hide EventKey;
    var left := t.events.Keys;
    while left != {}
      invariant left <= t.events.Keys
      invariant forall k :: k in t.events && k !in left ==> !(t.events[k].fields.projectId == project && t.events[k].Key() == key)
    {
      var k :| k in left;
      if t.events[k].fields.projectId == project && t.events[k].Key() == key {
        return Some(t.events[k].Id());
      }
      left := left - {k};
    }
    StoredByKey(t, project, log, key);
    owner := None;
  }

  lemma StoredSame(project: Text, log: seq<Event>, existing: Event, e: Event)
    requires Valid(project, log) && existing in log && existing.Id() == e.Id()
    ensures HasSame(log, e) <==> existing.checksum == e.checksum
  {
    var i :| 0 <= i < |log| && log[i] == existing;
    if HasSame(log, e) {
      var j :| 0 <= j < |log| && log[j].Id() == e.Id() && log[j].checksum == e.checksum;
      if i < j { LaterIsFresh(project, log, i, j); }
      if j < i { LaterIsFresh(project, log, j, i); }
    }
  }

  // Sorting what a scan found gives the log beyond the cursor, in order.
  lemma ScanIsAfter(project: Text, log: seq<Event>, cursor: Cursor, found: seq<Event>)
    requires Valid(project, log) && S.Distinct(found)
    requires forall e :: e in found <==> e in log && Before(cursor, e.Cursor())
    ensures S.Sort(found, EventCursor) == E.After(log, cursor)
  {
    var k := E.AfterIsSuffix(project, log, cursor);
    var rest := log[k..];
    SuffixAscends(project, log, k);
    forall e ensures e in found <==> e in rest {
      SuffixHas(project, log, cursor, k, e);
    }
    S.SameDistinctElements(found, rest);
    S.SortFacts(found, EventCursor);
    S.AscendingIsUnique(S.Sort(found, EventCursor), rest, EventCursor);
  }

  function EventCursor(e: Event): Cursor {
    e.Cursor()
  }

  lemma SuffixAscends(project: Text, log: seq<Event>, k: nat)
    requires Valid(project, log) && k <= |log|
    ensures S.Ascending(log[k..], EventCursor) && S.Distinct(log[k..])
  {
    forall i, j | 0 <= i < j < |log[k..]|
      ensures Before(EventCursor(log[k..][i]), EventCursor(log[k..][j])) && log[k..][i] != log[k..][j] {
      CursorsIncrease(project, log, k + i, k + j);
    }
  }

  lemma SuffixHas(project: Text, log: seq<Event>, cursor: Cursor, k: nat, e: Event)
    requires Valid(project, log) && k <= |log|
    requires k > 0 ==> !Before(cursor, log[k - 1].Cursor())
    requires k < |log| ==> Before(cursor, log[k].Cursor())
    ensures e in log[k..] <==> e in log && Before(cursor, e.Cursor())
  {
    if e in log {
      var i :| 0 <= i < |log| && log[i] == e;
      if k < i { CursorsIncrease(project, log, k, i); }
      if i < k - 1 { CursorsIncrease(project, log, i, k - 1); }
      if k <= i { assert log[k..][i - k] == e; }
      if e in log[k..] {
        var j :| 0 <= j < |log[k..]| && log[k..][j] == e;
        if k + j != i && i < k + j { CursorsIncrease(project, log, i, k + j); }
        if k + j != i && k + j < i { CursorsIncrease(project, log, k + j, i); }
      }
    }
  }

  // ---------------------------------------------------------- the transaction

  class DALJournal {
    const db: Database
    const projectId: Text
    const endpointId: Text
    var role: Role
    var epoch: int
    var replicaIds: seq<Text>

    // The endpoint this journal presents; an outbox is known by its rows.
    ghost predicate Matches(ep: E.Endpoint)
      reads this, db
    {
      && db.Consistent()
      && ep.id == endpointId && ep.project == projectId && ep.role == role && ep.epoch == epoch
      && ep.replicas == E.SetOf(replicaIds) && ep.log == LogOf(db.logs, projectId)
      && forall r: Text :: RowsFor(db.tables, projectId, r) == E.RowsOf(ep.outbox, r)
    }

    // What a transaction of this project must leave alone.
    twostate predicate OthersKept()
      reads db
    {
      && (forall q: Text :: q != projectId ==> LogOf(db.logs, q) == LogOf(old(db.logs), q))
      && (forall q: Text, r: Text :: q != projectId ==> RowsFor(db.tables, q, r) == RowsFor(old(db.tables), q, r))
    }

    constructor (db: Database, projectId: Text, endpointId: Text, role: Role, epoch: int, replicaIds: seq<Text>)
      requires !Blank(projectId) && !Blank(endpointId) && epoch >= 1 && E.ValidReplicaIds(replicaIds)
      ensures this.db == db && this.projectId == projectId && this.endpointId == endpointId
      ensures this.role == role && this.epoch == epoch && this.replicaIds == replicaIds
    {
      this.db, this.projectId, this.endpointId := db, projectId, endpointId;
      this.role, this.epoch, this.replicaIds := role, epoch, replicaIds;
    }

    // Validates one event and writes its rows. `fault`: storage fails under it, which dooms the whole transaction.
    method CommitOneLocked(tx: Tables, head: Cursor, hash: Digest, event: Event, fault: bool, ghost log: seq<Event>)
      returns (after: Tables, head': Cursor, hash': Digest, encoded: Option<Event>, failure: Option<Error>, infra: bool)
      requires Valid(projectId, log) && EventRows(tx, projectId, log) && head == Head(log) && hash == HeadHash(log)
      ensures infra ==> fault && failure == Some(StorageFailure)
      ensures fault ==> infra || Verify(event).Some? || event.fields.projectId != projectId
      ensures !infra ==>
        match DecideStored(projectId, log, event)
        case Commit =>
          after == WriteRows(tx, E.SetOf(replicaIds), event) && head' == event.Cursor() && hash' == event.checksum
          && encoded == Some(event) && failure.None?
        case Replay => after == tx && head' == head && hash' == hash && encoded.None? && failure.None?
        case Refuse(error) => after == tx && head' == head && hash' == hash && encoded.None? && failure == Some(error)
    {
      hide Valid, EventRows, EventKey, OutboxKey;
      after, head', hash', encoded, infra := tx, head, hash, None, false;
      failure := Verify(event);
      if failure.Some? {
        return;
      }
      if event.fields.projectId != projectId {
        return after, head', hash', None, Some(WrongProject), false;
      }
      if fault {
        return after, head', hash', None, Some(StorageFailure), true;
      }
      var existing := LoadEvent(tx, projectId, event.Id(), log);
      if existing.Some? {
        StoredSame(projectId, log, existing.value, event);
        failure := if existing.value.checksum != event.checksum then Some(IdReused) else None;
        return;
      }
      failure := ValidateNext(head, hash, event);
      if failure.Some? {
        return;
      }
      var owner := LoadIdempotencyKey(tx, projectId, event.Key(), log);
      if owner.Some? {
        return after, head', hash', None, Some(KeyReused), false;
      }
      after := SetRows(tx, event);
      head', hash', encoded := event.Cursor(), event.checksum, Some(event);
    }

    // The journal row, the domain row, and one outbox row per replica.
    method SetRows(tx: Tables, event: Event) returns (after: Tables)
      requires event.fields.projectId == projectId
      ensures after == WriteRows(tx, E.SetOf(replicaIds), event)
    {
      hide EventKey, OutboxKey;
      var k := EventKey(projectId, event.Id());
      var outbox := tx.outbox;
      AddOutboxOneMore(outbox, {}, [], event);
      assert E.SetOf(replicaIds[..0]) == {};
      for i := 0 to |replicaIds|
        invariant outbox == AddOutbox(tx.outbox, E.SetOf(replicaIds[..i]), event)
      {
        AddOutboxOneMore(tx.outbox, E.SetOf(replicaIds[..i]), replicaIds[i], event);
        assert E.SetOf(replicaIds[..i + 1]) == E.SetOf(replicaIds[..i]) + {replicaIds[i]};
        outbox := outbox[OutboxKey(projectId, replicaIds[i], event.Id()) := event];
      }
      assert replicaIds[..|replicaIds|] == replicaIds;
      after := tx.(events := tx.events[k := event], messages := tx.messages[k := event], outbox := outbox);
    }

    // The transaction's last write and its commit.
    method Finish(tx: Tables, last: Event, ghost ep: E.Endpoint)
      requires db.Consistent() && Tracks(tx, db.tables, db.logs, ep)
      requires ep.log != [] && Last(ep.log) == last && last.fields.projectId == projectId
      requires ep.id == endpointId && ep.project == projectId && ep.role == role && ep.epoch == epoch && ep.replicas == E.SetOf(replicaIds)
      modifies db
      ensures Matches(ep) && OthersKept()
    {
      hide Stored, Keyed, RowsFor, WriteHead, EventRows, Valid, E.Sound, E.RowsOf, E.SetOf;
      TracksFinish(tx, db.tables, db.logs, ep);
      forall q: Text, r: Text ensures RowsFor(WriteHead(tx, last), q, r) == RowsFor(tx, q, r) {
        SameOutboxSameRows(tx, WriteHead(tx, last), q, r);
      }
      db.tables := WriteHead(tx, last);
      db.logs := db.logs[projectId := ep.log];
    }

    ghost predicate Answers(failure: Option<Error>, log: seq<Event>, event: Event) {
      match DecideStored(projectId, log, event)
      case Refuse(error) => failure == Some(error)
      case _ => failure.None?
    }

    // The single-event transaction. `aborts`: reading the head or committing fails.
    method AppendTx(event: Event, fault: bool, aborts: bool, ghost ep: E.Endpoint) returns (failure: Option<Error>)
      requires Matches(ep)
      modifies db
      ensures failure.Some? ==> unchanged(db)
      ensures failure == Some(StorageFailure) ==> fault || aborts
      ensures failure != Some(StorageFailure) ==>
        Matches(E.AppendData(ep, event).0) && OthersKept() && Answers(failure, ep.log, event)
        && (failure.None? <==> E.AppendData(ep, event).1.None?)
    {
      hide Keyed, RowsFor, EventRows, HeadRow, Valid, WriteRows, DecideStored;
      RefusedStays(ep, event);
      failure := Verify(event);
      if failure.Some? {
        VerifyRefuses(ep.log, event);
        return;
      }
      if event.fields.projectId != projectId {
        VerifyRefuses(ep.log, event);
        return Some(WrongProject);
      }
      if aborts {
        return Some(StorageFailure);
      }
      assert Stored(db.tables, projectId, LogOf(db.logs, projectId));
      TracksStart(db.tables, db.logs, ep);
      var head, hash, _ := LoadHead(db.tables, projectId, ep.log);
      var tx, encoded, infra;
      tx, head, hash, encoded, failure, infra := CommitOneLocked(db.tables, head, hash, event, fault, ep.log);
      if failure.Some? || encoded.None? {
        return;
      }
      TracksCommit(db.tables, db.tables, db.logs, ep, event);
      CommittedIsHere(ep, event);
      Finish(tx, encoded.value, E.AppendData(ep, event).0);
    }

    lemma VerifyRefuses(log: seq<Event>, event: Event)
      ensures Verify(event).Some? ==> Answers(Verify(event), log, event)
      ensures Verify(event).None? && event.fields.projectId != projectId ==> Answers(Some(WrongProject), log, event)
    {
    }

    // Group commit: one transaction, one head write, one verdict per event; an infrastructure failure leaves nothing behind.
    method CommitBatch(events: seq<Event>, fault: Option<nat>, aborts: bool, ghost ep: E.Endpoint)
      returns (results: seq<Option<Error>>, failure: Option<Error>)
      requires Matches(ep)
      modifies db
      ensures |results| == |events|
      ensures failure.Some? ==> unchanged(db) && (fault.Some? || aborts) && forall i :: 0 <= i < |events| ==> results[i] == failure
      ensures failure.None? ==> Matches(E.CommitWindow(ep, events).0) && OthersKept()
      ensures failure.None? ==> forall i :: 0 <= i < |events| ==> (results[i].None? <==> E.CommitWindow(ep, events).1[i].None?)
    {
      hide Keyed, RowsFor, EventRows, HeadRow, Valid, WriteRows, DecideStored, E.AppendData, E.CommitWindow, Head, HeadHash;
      results, failure := seq(|events|, i => Some(StorageFailure)), Some(StorageFailure);
      if aborts {
        return;
      }
      assert Stored(db.tables, projectId, LogOf(db.logs, projectId));
      TracksStart(db.tables, db.logs, ep);
      var head, hash, _ := LoadHead(db.tables, projectId, ep.log);
      var tx, last: Option<Event>, answers: seq<Option<Error>> := db.tables, None, [];
      ghost var run := ep;
      WindowEmpty(ep);
      for i := 0 to |events|
        invariant |answers| == i && unchanged(db)
        invariant run == E.CommitWindow(ep, events[..i]).0
        invariant forall j :: 0 <= j < i ==> (answers[j].None? <==> E.CommitWindow(ep, events[..i]).1[j].None?)
        invariant Tracks(tx, db.tables, db.logs, run) && head == Head(run.log) && hash == HeadHash(run.log)
        invariant run == ep.(log := run.log, outbox := run.outbox)
        invariant last.None? ==> tx == db.tables && run == ep
        invariant last.Some? ==> run.log != [] && Last(run.log) == last.value && last.value.fields.projectId == projectId
      {
        ghost var before, txBefore := run, tx;
        var encoded, refusal, infra;
        tx, head, hash, encoded, refusal, infra := CommitOneLocked(tx, head, hash, events[i], fault == Some(i), run.log);
        if infra {
          return;
        }
        WindowOneMore(ep, events[..i], events[i]);
        assert events[..i + 1] == events[..i] + [events[i]];
        answers := answers + [refusal];
        RefusedStays(before, events[i]);
        run := E.AppendData(before, events[i]).0;
        if encoded.Some? {
          HeadOfExtended(before.log, events[i]);
          TracksCommit(txBefore, db.tables, db.logs, before, events[i]);
          CommittedIsHere(before, events[i]);
          last := encoded;
        }
      }
      assert events[..|events|] == events;
      if last.Some? {
        Finish(tx, last.value, run);
      }
      results, failure := answers, None;
    }

    method Append(event: Event, fault: bool, aborts: bool, ghost ep: E.Endpoint) returns (failure: Option<Error>)
      requires Matches(ep)
      modifies db
      ensures failure.Some? ==> unchanged(db)
      ensures failure == Some(StorageFailure) ==> fault || aborts
      ensures failure != Some(StorageFailure) ==>
        Matches(E.Append(ep, event).0) && OthersKept() && (failure.None? <==> E.Append(ep, event).1.None?)
    {
      if !role.Active? || event.Cursor().epoch != epoch {
        return Some(RoleFenced);
      }
      failure := AppendTx(event, fault, aborts, ep);
    }

    method IngestReplica(event: Event, fault: bool, aborts: bool, ghost ep: E.Endpoint) returns (failure: Option<Error>)
      requires Matches(ep)
      modifies db
      ensures failure.Some? ==> unchanged(db)
      ensures failure == Some(StorageFailure) ==> fault || aborts
      ensures failure != Some(StorageFailure) ==>
        Matches(E.Ingest(ep, event).0) && OthersKept() && (failure.None? <==> E.Ingest(ep, event).1.None?)
    {
      if !role.Replica? {
        return Some(RoleFenced);
      }
      failure := AppendTx(event, fault, aborts, ep);
    }

    // What the batcher still has pending is committed first, at the old epoch; if that fails the fence goes on without it.
    // Role and epoch move only after the checkpoint is durable, so a failed transaction loses nothing.
    method FenceAsReplica(request: E.Request, candidate: Text, pending: seq<Event>, flushFault: Option<nat>, flushAborts: bool, now: Instant,
                          fault: bool, aborts: bool, ghost ep: E.Endpoint)
      returns (r: Result<Event>, ghost flushed: E.Endpoint)
      requires Matches(ep)
      modifies this`role, this`epoch, db
      ensures flushed == ep || flushed == E.CommitWindow(ep, pending).0
      ensures ep.role.Active? && flushFault.None? && !flushAborts ==> flushed == E.CommitWindow(ep, pending).0
      ensures !ep.role.Active? ==> flushed == ep
      ensures OthersKept()
      ensures var (after, answer) := E.FenceAsReplica(flushed, request, candidate, HeadHash(flushed.log), now);
        if r == Err(StorageFailure) then (fault || aborts) && Matches(flushed)
        else Matches(after) && (r.Ok? <==> answer.Ok?) && (r.Ok? ==> r == answer)
    {
      hide Keyed, RowsFor, Valid, EventRows, E.BuildCheckpoint, E.AppendData, E.CommitWindow, Answers;
      flushed := ep;
      if !role.Active? {
        return Err(FenceSourceNotActive), ep;
      }
      var results, failed := CommitBatch(pending, flushFault, flushAborts, ep);
      if failed.None? {
        flushed := E.CommitWindow(ep, pending).0;
      }
      r := FenceFlushed(request, candidate, now, fault, aborts, flushed);
    }

    method FenceFlushed(request: E.Request, candidate: Text, now: Instant, fault: bool, aborts: bool, ghost ep: E.Endpoint)
      returns (r: Result<Event>)
      requires Matches(ep) && ep.role.Active?
      modifies this`role, this`epoch, db
      ensures OthersKept()
      ensures var (after, answer) := E.FenceAsReplica(ep, request, candidate, HeadHash(ep.log), now);
        if r == Err(StorageFailure) then (fault || aborts) && Matches(ep)
        else Matches(after) && (r.Ok? <==> answer.Ok?) && (r.Ok? ==> r == answer)
    {
      hide Keyed, RowsFor, Valid, EventRows, E.BuildCheckpoint, E.AppendData, Answers;
      assert Stored(db.tables, projectId, LogOf(db.logs, projectId));
      var _, hash, _ := LoadHead(db.tables, projectId, ep.log);
      r := E.BuildCheckpoint(projectId, endpointId, candidate, request, hash, epoch + 1, now);
      if r.Err? {
        BuildFailsIncomplete(projectId, endpointId, candidate, request, hash, epoch + 1, now);
        return;
      }
      E.RefusedUnchanged(ep, r.value);
      var failure := AppendTx(r.value, fault, aborts, ep);
      if failure.Some? {
        return Err(failure.value);
      }
      role, epoch := Replica, r.value.Cursor().epoch;
    }

    // No outbox is prepared here; a replica simply has no rows yet.
    method PromoteToActive(checkpoint: Event, ids: seq<Text>, fault: bool, ghost ep: E.Endpoint) returns (failure: Option<Error>)
      requires Matches(ep)
      modifies this`role, this`epoch, this`replicaIds
      ensures if failure == Some(StorageFailure) then fault && Matches(ep)
        else Matches(E.PromoteToActive(ep, checkpoint, ids).0) && failure == E.PromoteToActive(ep, checkpoint, ids).1
      ensures fault && ep.role.Replica? ==> failure == Some(StorageFailure)
    {
      hide Keyed, RowsFor, Valid, EventRows;
      if role.Active? {
        if epoch != checkpoint.Cursor().epoch {
          return Some(PromoteTargetWrongEpoch);
        }
      } else {
        if fault {
          return Some(StorageFailure);
        }
        assert Stored(db.tables, projectId, LogOf(db.logs, projectId));
        var head, hash, _ := LoadHead(db.tables, projectId, ep.log);
        if head != checkpoint.Cursor() || hash != checkpoint.checksum {
          return Some(PromotionNotConverged);
        }
        role, epoch := Active, checkpoint.Cursor().epoch;
      }
      if !E.ValidReplicaIds(ids) {
        return Some(InvalidReplicaIds);
      }
      replicaIds := ids;
      failure := None;
    }

    method ReadHead(ghost ep: E.Endpoint) returns (head: Cursor, hash: Digest)
      requires Matches(ep)
      ensures head == Head(ep.log) && hash == HeadHash(ep.log)
    {
      assert Stored(db.tables, projectId, LogOf(db.logs, projectId));
      var failure;
      head, hash, failure := LoadHead(db.tables, projectId, ep.log);
    }

    // A scan over every project's rows, sorted afterwards.
    method After(cursor: Cursor, ghost ep: E.Endpoint) returns (events: seq<Event>)
      requires Matches(ep)
      ensures events == E.After(ep.log, cursor)
    {
      hide Keyed, RowsFor, Valid, EventKey, Before, EventRows, HeadRow, S.Sort, E.After, E.RowsOf;
      assert Stored(db.tables, projectId, LogOf(db.logs, projectId));
      assert Keyed(db.tables);
      var rows := db.tables.events;
      var left, found: seq<Event> := rows.Keys, [];
      while left != {}
        invariant left <= rows.Keys
        invariant forall e :: e in found <==> exists k :: k in rows && k !in left && rows[k] == e && e.fields.projectId == projectId && Before(cursor, e.Cursor())
        invariant S.Distinct(found)
      {
        var k :| k in left;
        if rows[k].fields.projectId == projectId && Before(cursor, rows[k].Cursor()) {
          OneRowPerEvent(db.tables, k);
          found := found + [rows[k]];
        }
        left := left - {k};
      }
      FoundIsLog(db.tables, projectId, ep.log, cursor, found);
      ScanIsAfter(projectId, ep.log, cursor, found);
      events := S.Sort(found, EventCursor);
    }

    method HeadEvent(ghost ep: E.Endpoint) returns (r: Option<Event>)
      requires Matches(ep)
      ensures r == if ep.log == [] then None else Some(Last(ep.log))
    {
      hide Keyed, RowsFor, EventRows;
      assert Stored(db.tables, projectId, LogOf(db.logs, projectId));
      var head, _ := ReadHead(ep);
      HeadAlone(projectId, ep.log);
      if head.IsZero() {
        return None;
      }
      var events := After(Cursor(head.epoch, head.sequence - 1), ep);
      r := Some(Last(events));
    }

    method PendingOutbox(replica: Text, ghost ep: E.Endpoint) returns (r: Result<seq<Event>>)
      requires Matches(ep)
      ensures Blank(replica) ==> r == Err(ReplicaIdRequired)
      ensures !Blank(replica) ==> r.Ok? && S.Sorted(r.value, EventCursor)
      ensures !Blank(replica) ==> forall e :: e in r.value <==> e in E.RowsOf(ep.outbox, replica).Values
    {
      hide Keyed, OutboxKey, OutboxKeyPrefix, Valid, Blank;
      if Blank(replica) {
        return Err(ReplicaIdRequired);
      }
      var prefix := OutboxKeyPrefix(projectId, replica);
      var rows := db.tables.outbox;
      var left, found: seq<Event> := rows.Keys, [];
      while left != {}
        invariant left <= rows.Keys
        invariant forall e :: e in found <==> exists k :: k in rows && k !in left && rows[k] == e && prefix <= k
      {
        var k :| k in left;
        if prefix <= k {
          found := found + [rows[k]];
        }
        left := left - {k};
      }
      forall e ensures e in found <==> e in RowsFor(db.tables, projectId, replica).Values {
        ScannedIsWaiting(db.tables, projectId, replica, e);
      }
      S.SortFacts(found, EventCursor);
      var sorted := S.Sort(found, EventCursor);
      forall e ensures e in sorted <==> e in found {
        assert e in sorted <==> e in multiset(sorted);
        assert e in found <==> e in multiset(found);
      }
      r := Ok(sorted);
    }

    method AckOutbox(replica: Text, eventIds: seq<Text>, aborts: bool, ghost ep: E.Endpoint) returns (failure: Option<Error>)
      requires Matches(ep)
      modifies db
      ensures failure.Some? ==> unchanged(db)
      ensures failure.None? ==> Matches(E.AckOutbox(ep, replica, E.SetOf(eventIds))) && OthersKept()
      ensures failure.None? ==> !Blank(replica) && forall i :: 0 <= i < |eventIds| ==> !Blank(eventIds[i])
      ensures failure.Some? ==> aborts || Blank(replica) || exists i :: 0 <= i < |eventIds| && Blank(eventIds[i])
    {
      hide Keyed, OutboxKey, EventRows, HeadRow, Valid, Blank;
      if Blank(replica) {
        return Some(ReplicaIdRequired);
      }
      for i := 0 to |eventIds|
        invariant unchanged(db) && forall j :: 0 <= j < i ==> !Blank(eventIds[j])
      {
        if Blank(eventIds[i]) {
          return Some(EventIdRequired);
        }
      }
      if eventIds != [] && aborts {
        return Some(StorageFailure);
      }
      var outbox := db.tables.outbox;
      assert AckKeys(projectId, replica, E.SetOf(eventIds[..0])) == {};
      for i := 0 to |eventIds|
        invariant unchanged(db) && outbox == db.tables.outbox - AckKeys(projectId, replica, E.SetOf(eventIds[..i]))
      {
        AckKeysOneMore(projectId, replica, eventIds[..i], eventIds[i]);
        assert eventIds[..i + 1] == eventIds[..i] + [eventIds[i]];
        outbox := outbox - {OutboxKey(projectId, replica, eventIds[i])};
      }
      assert eventIds[..|eventIds|] == eventIds;
      Drop(outbox, replica, E.SetOf(eventIds), ep);
      failure := None;
    }

    method Drop(outbox: map<Text, Event>, replica: Text, ghost ids: set<Text>, ghost ep: E.Endpoint)
      requires Matches(ep) && outbox == DropRows(db.tables, projectId, replica, ids).outbox
      modifies db
      ensures Matches(E.AckOutbox(ep, replica, ids)) && OthersKept()
    {
      hide Keyed, OutboxKey, EventRows, HeadRow, Valid, RowsFor;
      ghost var before := db.tables;
      DropKeepsKeys(before, projectId, replica, ids);
      forall q: Text, r: Text ensures RowsFor(DropRows(before, projectId, replica, ids), q, r) ==
          if q == projectId && r == replica then RowsFor(before, q, r) - ids else RowsFor(before, q, r) {
        DropOutboxRows(before, projectId, replica, ids, q, r);
      }
      db.tables := db.tables.(outbox := outbox);
      assert db.tables == DropRows(before, projectId, replica, ids);
      forall p: Text ensures Stored(db.tables, p, LogOf(db.logs, p)) {
        assert Stored(before, p, LogOf(db.logs, p));
        DropLeavesLog(before, projectId, replica, ids, p, LogOf(db.logs, p));
      }
      forall r: Text ensures RowsFor(db.tables, projectId, r) == E.RowsOf(E.AckOutbox(ep, replica, ids).outbox, r) {
        AckRowsOf(ep, replica, ids, r);
      }
    }
  }

  lemma AckRowsOf(ep: E.Endpoint, replica: Text, ids: set<Text>, r: Text)
    ensures E.RowsOf(E.AckOutbox(ep, replica, ids).outbox, r) == if r == replica then E.RowsOf(ep.outbox, r) - ids else E.RowsOf(ep.outbox, r)
  {
  }

  lemma DropLeavesLog(t: Tables, project: Text, replica: Text, ids: set<Text>, p: Text, log: seq<Event>)
    requires Stored(t, p, log)
    ensures Stored(DropRows(t, project, replica, ids), p, log)
  {
  }

  lemma AckKeysOneMore(project: Text, replica: Text, ids: seq<Text>, id: Text)
    ensures AckKeys(project, replica, E.SetOf(ids + [id])) == AckKeys(project, replica, E.SetOf(ids)) + {OutboxKey(project, replica, id)}
  {
    hide OutboxKey;
    forall k ensures k in AckKeys(project, replica, E.SetOf(ids + [id])) <==>
        k in AckKeys(project, replica, E.SetOf(ids)) + {OutboxKey(project, replica, id)} {
      if k == OutboxKey(project, replica, id) {
        assert id in ids + [id];
      } else if k in AckKeys(project, replica, E.SetOf(ids)) {
        var d :| d in E.SetOf(ids) && k == OutboxKey(project, replica, d);
        assert d in ids + [id];
      }
    }
  }

  lemma ScannedIsWaiting(t: Tables, project: Text, replica: Text, e: Event)
    requires Keyed(t)
    ensures (exists k :: k in t.outbox && t.outbox[k] == e && OutboxKeyPrefix(project, replica) <= k) <==> e in RowsFor(t, project, replica).Values
  {
    hide OutboxKey, OutboxKeyPrefix, Keyed;
    if k :| k in t.outbox && t.outbox[k] == e && OutboxKeyPrefix(project, replica) <= k {
      ScanIsExact(t, project, replica, k);
      assert RowsFor(t, project, replica)[e.Id()] == e;
    }
    if e in RowsFor(t, project, replica).Values {
      var id :| id in RowsFor(t, project, replica) && RowsFor(t, project, replica)[id] == e;
      RowsForHas(t, project, replica, id);
      var k := OutboxKey(project, replica, id);
      ScanIsExact(t, project, replica, k);
    }
  }

  lemma OneRowPerEvent(t: Tables, k: Text)
    requires Keyed(t) && k in t.events
    ensures forall j :: j in t.events && t.events[j] == t.events[k] ==> j == k
  {
  }

  lemma FoundIsLog(t: Tables, project: Text, log: seq<Event>, cursor: Cursor, found: seq<Event>)
    requires EventRows(t, project, log)
    requires forall e :: e in found <==> exists k :: k in t.events && t.events[k] == e && e.fields.projectId == project && Before(cursor, e.Cursor())
    ensures forall e :: e in found <==> e in log && Before(cursor, e.Cursor())
  {
    hide EventKey;
    forall e ensures e in found <==> e in log && Before(cursor, e.Cursor()) {
      if e in log {
        assert t.events[EventKey(project, e.Id())] == e;
      }
    }
  }

  lemma HeadAlone(project: Text, log: seq<Event>)
    requires Valid(project, log)
    ensures Head(log).IsZero() <==> log == []
    ensures log != [] ==> E.After(log, Cursor(Head(log).epoch, Head(log).sequence - 1)) != []
    ensures log != [] ==> Last(E.After(log, Cursor(Head(log).epoch, Head(log).sequence - 1))) == Last(log)
  {
    if log != [] {
      Linked(project, log, |log| - 1);
    }
  }

  lemma BuildFailsIncomplete(project: Text, former: Text, candidate: Text, request: E.Request, previous: Digest, newEpoch: int, now: Instant)
    ensures E.BuildCheckpoint(project, former, candidate, request, previous, newEpoch, now).Err? ==>
      E.BuildCheckpoint(project, former, candidate, request, previous, newEpoch, now) == Err(Incomplete)
  {
  }

  lemma WindowEmpty(ep: E.Endpoint)
    ensures E.CommitWindow(ep, []) == (ep, [])
  {
  }

  lemma HeadOfExtended(log: seq<Event>, e: Event)
    ensures Head(log + [e]) == e.Cursor() && HeadHash(log + [e]) == e.checksum && Last(log + [e]) == e
  {
  }

  lemma WindowOneMore(ep: E.Endpoint, window: seq<Event>, e: Event)
    ensures E.CommitWindow(ep, window + [e]) ==
      (E.AppendData(E.CommitWindow(ep, window).0, e).0, E.CommitWindow(ep, window).1 + [E.AppendData(E.CommitWindow(ep, window).0, e).1])
  {
    assert Init(window + [e]) == window;
  }
}
