/** The lifecycle shared by efforts and runs: its transition table, the fold of transition events, and what the log says. */
module Lifecycles {
  import opened Events
  import opened Chain

  const TRANSITIONS: map<Status, set<Status>> := map[
    Planning := {Working, Aborted},
    Working := {HandoffPending, AwaitingMerge, AwaitingPush, AwaitingCleanup, Aborted, Failed},
    HandoffPending := {Superseded, Working, Aborted},
    AwaitingMerge := {AwaitingPush, AwaitingCleanup, Aborted, Failed},
    AwaitingPush := {AwaitingCleanup, Aborted, Failed},
    AwaitingCleanup := {Completed, Aborted, Failed},
    Completed := {Archived},
    Aborted := {Archived},
    Failed := {Archived},
    Superseded := {Archived}]

  const TERMINAL: set<Status> := {Completed, Aborted, Failed, Superseded}

  const NO_STATUS := Unlisted([])

  predicate Allowed(source: Status, target: Status) {
    source in TRANSITIONS && target in TRANSITIONS[source]
  }

  function ValidateTransition(source: Status, target: Status, disposition: Text): Option<Error> {
    if target == NO_STATUS then Some(InvalidTransition)
    else if !Allowed(source, target) then Some(InvalidTransition)
    else if target in TERMINAL && disposition == [] then Some(InvalidTransition)
    else if target !in TERMINAL && disposition != [] then Some(InvalidTransition)
    else None
  }

  datatype Record = Record(status: Status, disposition: Text)

  type Records = map<Text, Record>

  function InitialStatus(subject: Subject): Status {
    match subject
    case Effort => Planning
    case Run => Working
  }

  // A transition without a disposition keeps the one already recorded.
  function Moved(r: Record, target: Status, disposition: Text): Record {
    Record(target, if disposition != [] then disposition else r.disposition)
  }

  function RecordOne(records: Records, subject: Subject, payload: Payload): Records {
    match payload
    case Started(s, id) => if s == subject then records[id := Record(InitialStatus(subject), [])] else records
    case Transitioned(s, id, _, target, disposition) =>
      if s == subject && id in records then records[id := Moved(records[id], target, disposition)] else records
    case _ => records
  }

  function FoldRecords(log: seq<Event>, subject: Subject): Records {
    if log == [] then map[] else RecordOne(FoldRecords(Init(log), subject), subject, Last(log).fields.payload)
  }

  // foldEfforts and foldRuns, as far as status and disposition go.
  method FoldSubjects(events: seq<Event>, subject: Subject) returns (records: Records)
    ensures records == FoldRecords(events, subject)
  {
    records := map[];
    for i := 0 to |events|
      invariant records == FoldRecords(events[..i], subject)
    {
      assert Init(events[..i + 1]) == events[..i] && Last(events[..i + 1]) == events[i];
      match events[i].fields.payload {
        case Started(s, id) =>
          if s == subject {
            records := records[id := Record(InitialStatus(subject), [])];
          }
        case Transitioned(s, id, _, target, disposition) =>
          if s == subject && id in records {
            var record := records[id].(status := target);
            if disposition != [] {
              record := record.(disposition := disposition);
            }
            records := records[id := record];
          }
        case _ =>
      }
    }
    assert events[..|events|] == events;
  }

  datatype Verdict = Emit(payload: Payload) | Deny(error: Error)

  function DecideTransition(records: Records, subject: Subject, id: Text, target: Status, disposition: Text): Verdict {
    if id !in records then Deny(NotFound)
    else
      match ValidateTransition(records[id].status, target, disposition)
      case Some(error) => Deny(error)
      case None => Emit(Transitioned(subject, id, records[id].status, target, disposition))
  }

  // ------------------------------------------------------------ legal logs

  // A subject starts once; a transition leaves the status the log shows right before it, along the table.
  predicate MayFollow(records: Records, subject: Subject, payload: Payload) {
    match payload
    case Started(s, id) => s == subject ==> id !in records
    case Transitioned(s, id, source, target, disposition) =>
      s == subject ==> id in records && records[id].status == source && ValidateTransition(source, target, disposition).None?
    case _ => true
  }

  predicate Legal(log: seq<Event>, subject: Subject) {
    log == [] || (Legal(Init(log), subject) && MayFollow(FoldRecords(Init(log), subject), subject, Last(log).fields.payload))
  }

  lemma DecisionIsLegal(log: seq<Event>, subject: Subject, id: Text, target: Status, disposition: Text)
    ensures var v := DecideTransition(FoldRecords(log, subject), subject, id, target, disposition);
      v.Emit? ==> MayFollow(FoldRecords(log, subject), subject, v.payload)
  {
  }

  // The statuses one subject went through, oldest first.
  function Path(log: seq<Event>, subject: Subject, id: Text): seq<Status> {
    if log == [] then []
    else
      var before := Path(Init(log), subject, id);
      match Last(log).fields.payload
      case Started(s, i) => if s == subject && i == id then [InitialStatus(subject)] else before
      case Transitioned(s, i, _, target, _) => if s == subject && i == id && before != [] then before + [target] else before
      case _ => before
  }

  predicate OnTable(path: seq<Status>) {
    forall i :: 0 <= i < |path| - 1 ==> Allowed(path[i], path[i + 1])
  }

  predicate Settled(r: Record) {
    r.disposition != [] <==> r.status in TERMINAL || r.status == Archived
  }

  lemma OneMoreOnTable(path: seq<Status>, target: Status)
    requires OnTable(path) && path != [] && Allowed(path[|path| - 1], target)
    ensures OnTable(path + [target])
  {
  }

  // Terminal statuses only lead to the archive, and only they do.
  lemma MoveSettles(r: Record, target: Status, disposition: Text)
    requires Settled(r) && ValidateTransition(r.status, target, disposition).None?
    ensures Settled(Moved(r, target, disposition))
  {
  }

  // In every legal log each subject's statuses are a path through the table from its initial status to its present one,
  // and a disposition is recorded exactly when that present status is terminal or archived.
  lemma {:induction false} LogIsPath(log: seq<Event>, subject: Subject, id: Text)
    requires Legal(log, subject)
    ensures id in FoldRecords(log, subject) <==> Path(log, subject, id) != []
    ensures id in FoldRecords(log, subject) ==>
      var path, r := Path(log, subject, id), FoldRecords(log, subject)[id];
      && path[0] == InitialStatus(subject) && path[|path| - 1] == r.status && OnTable(path) && Settled(r)
  {
    hide Allowed, ValidateTransition, OnTable, Settled;
    if log != [] {
      LogIsPath(Init(log), subject, id);
      var records, path := FoldRecords(Init(log), subject), Path(Init(log), subject, id);
      var payload := Last(log).fields.payload;
      if payload.Transitioned? && payload.subject == subject && payload.subjectId == id {
        Validated(records[id].status, payload.target, payload.disposition);
        OneMoreOnTable(path, payload.target);
        MoveSettles(records[id], payload.target, payload.disposition);
      }
      StartOnTable(subject);
    }
  }

  lemma Validated(source: Status, target: Status, disposition: Text)
    requires ValidateTransition(source, target, disposition).None?
    ensures Allowed(source, target)
  {
  }

  lemma StartOnTable(subject: Subject)
    ensures OnTable([InitialStatus(subject)]) && Settled(Record(InitialStatus(subject), []))
  {
  }

  lemma {:induction false} LegalAt(log: seq<Event>, subject: Subject, i: nat)
    requires Legal(log, subject) && i < |log|
    ensures Legal(log[..i], subject) && MayFollow(FoldRecords(log[..i], subject), subject, log[i].fields.payload)
  {
    if i < |log| - 1 {
      LegalAt(Init(log), subject, i);
      assert Init(log)[..i] == log[..i];
    } else {
      assert log[..i] == Init(log);
    }
  }

  // Every transition event states the status its subject had right before it.
  lemma TransitionStatesItsSource(log: seq<Event>, subject: Subject, i: nat)
    requires Legal(log, subject) && i < |log|
    requires log[i].fields.payload.Transitioned? && log[i].fields.payload.subject == subject
    ensures var p, path := log[i].fields.payload, Path(log[..i], subject, log[i].fields.payload.subjectId);
      path != [] && path[|path| - 1] == p.source && Allowed(p.source, p.target)
  {
    LegalAt(log, subject, i);
    LogIsPath(log[..i], subject, log[i].fields.payload.subjectId);
  }

  lemma OnTableMore(path: seq<Status>, target: Status)
    requires OnTable(path) && path != []
    ensures OnTable(path + [target]) <==> Allowed(path[|path| - 1], target)
  {
    if OnTable(path + [target]) {
      assert (path + [target])[|path| - 1] == path[|path| - 1] && (path + [target])[|path|] == target;
    } else {
      assert forall i :: 0 <= i < |path| - 1 ==> Allowed((path + [target])[i], (path + [target])[i + 1]);
    }
  }

  // A request is granted exactly if the subject is known, its path stays on the table with the target added, and a
  // disposition is given for a terminal target and no other.
  lemma TransitionExact(log: seq<Event>, subject: Subject, id: Text, target: Status, disposition: Text)
    requires Legal(log, subject)
    ensures var v, path := DecideTransition(FoldRecords(log, subject), subject, id, target, disposition), Path(log, subject, id);
      && (v.Emit? <==> path != [] && OnTable(path + [target]) && (disposition != [] <==> target in TERMINAL))
      && (v.Emit? ==> v.payload == Transitioned(subject, id, path[|path| - 1], target, disposition))
      && (v.Deny? ==> v == Deny(if path == [] then NotFound else InvalidTransition))
  {
    hide FoldRecords, Path, OnTable, Allowed, Settled;
    LogIsPath(log, subject, id);
    var path := Path(log, subject, id);
    if path != [] {
      OnTableMore(path, target);
      NoStatusNotAllowed(path[|path| - 1]);
    }
  }

  lemma NoStatusNotAllowed(source: Status)
    ensures !Allowed(source, NO_STATUS)
  {
  }

  predicate Concerns(payload: Payload, subject: Subject, id: Text) {
    (payload.Started? || payload.Transitioned?) && payload.subject == subject && payload.subjectId == id
  }

  // The archive is absorbing: once a legal log has archived a subject it holds no further event about it, and its record
  // never changes again.
  lemma {:induction false} ArchiveAbsorbs(log: seq<Event>, subject: Subject, id: Text, n: nat)
    requires Legal(log, subject) && n <= |log|
    requires id in FoldRecords(log[..n], subject) && FoldRecords(log[..n], subject)[id].status == Archived
    ensures id in FoldRecords(log, subject) && FoldRecords(log, subject)[id] == FoldRecords(log[..n], subject)[id]
    ensures forall k :: n <= k < |log| ==> !Concerns(log[k].fields.payload, subject, id)
  {
    if n < |log| {
      assert Init(log)[..n] == log[..n];
      ArchiveAbsorbs(Init(log), subject, id, n);
    } else {
      assert log[..n] == log;
    }
  }

  // And no request moves it.
  lemma ArchivedIsRefused(log: seq<Event>, subject: Subject, id: Text, target: Status, disposition: Text)
    requires id in FoldRecords(log, subject) && FoldRecords(log, subject)[id].status == Archived
    ensures DecideTransition(FoldRecords(log, subject), subject, id, target, disposition) == Deny(InvalidTransition)
  {
  }
}
