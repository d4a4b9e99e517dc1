/** One journal endpoint as a value, and what each journal operation does to it. */
module Endpoints {
  import opened Events
  import opened Chain

  // Per replica, the undelivered events by event id.
  type Rows = map<Text, map<Text, Event>>

  datatype Endpoint = Endpoint(
    id: Text, project: Text, role: Role, epoch: int,
    log: seq<Event>, replicas: set<Text>, outbox: Rows)

  ghost predicate Sound(ep: Endpoint) {
    Valid(ep.project, ep.log)
  }

  function RowsOf(outbox: Rows, replica: Text): map<Text, Event> {
    if replica in outbox then outbox[replica] else map[]
  }

  // One row for e per configured replica.
  function AddRows(outbox: Rows, replicas: set<Text>, e: Event): Rows {
    map r | r in outbox.Keys + replicas :: if r in replicas then RowsOf(outbox, r)[e.Id() := e] else outbox[r]
  }

  function AppendData(ep: Endpoint, e: Event): (Endpoint, Option<Error>) {
    match Decide(ep.project, ep.log, e)
    case Commit => (ep.(log := ep.log + [e], outbox := AddRows(ep.outbox, ep.replicas, e)), None)
    case Replay => (ep, None)
    case Refuse(error) => (ep, Some(error))
  }

  function Append(ep: Endpoint, e: Event): (Endpoint, Option<Error>) {
    if !ep.role.Active? || e.Cursor().epoch != ep.epoch then (ep, Some(RoleFenced)) else AppendData(ep, e)
  }

  function Ingest(ep: Endpoint, e: Event): (Endpoint, Option<Error>) {
    if !ep.role.Replica? then (ep, Some(RoleFenced)) else AppendData(ep, e)
  }

  // Group commit: each event gets its own verdict, against the log the earlier ones left.
  function CommitWindow(ep: Endpoint, events: seq<Event>): (r: (Endpoint, seq<Option<Error>>))
    ensures |r.1| == |events|
  {
    if events == [] then (ep, [])
    else
      var (before, results) := CommitWindow(ep, Init(events));
      var (after, result) := AppendData(before, Last(events));
      (after, results + [result])
  }

  // Every event of a window is answered against the log the events before it left.
  lemma {:induction false} AnswerAt(ep: Endpoint, window: seq<Event>, i: nat)
    requires i < |window|
    ensures CommitWindow(ep, window).1[i] == AppendData(CommitWindow(ep, window[..i]).0, window[i]).1
  {
    hide AppendData;
    if i < |window| - 1 {
      AnswerAt(ep, Init(window), i);
      assert Init(window)[..i] == window[..i];
    } else {
      assert Init(window) == window[..i];
    }
  }

  // ------------------------------------------------------------- promotion

  datatype Request = Request(actor: Text, command: Text, key: Text, reason: Text, replicaIds: seq<Text>)

  // "promotion:" and ":", as bytes.
  const PROMOTION_PREFIX: Text := [112, 114, 111, 109, 111, 116, 105, 111, 110, 58]
  const COLON: Text := [58]

  function PromotionKey(key: Text, former: Text, candidate: Text): Text {
    if Trim(key) != [] then Trim(key) else PROMOTION_PREFIX + former + COLON + candidate
  }

  // Promote hands the effective key on, so the fence sees it trimmed or defaulted already.
  function Effective(request: Request, former: Text, candidate: Text): Request {
    request.(key := PromotionKey(request.key, former, candidate))
  }

  function BuildCheckpoint(project: Text, former: Text, candidate: Text, request: Request,
                           previous: Digest, newEpoch: int, now: Instant): Result<Event> {
    var key := PromotionKey(request.key, former, candidate);
    NewEvent(Fields(StateChangeV1, project, key, Cursor(newEpoch, 1), now, request.actor, request.command,
                    key, [], Promotion(former, candidate, request.reason)), previous)
  }

  // The head hash is an argument because a journal over a database reads it before its append transaction.
  function FenceAsReplica(ep: Endpoint, request: Request, candidate: Text, previous: Digest, now: Instant): (Endpoint, Result<Event>) {
    if !ep.role.Active? then (ep, Err(FenceSourceNotActive))
    else
      match BuildCheckpoint(ep.project, ep.id, candidate, request, previous, ep.epoch + 1, now)
      case Err(error) => (ep, Err(error))
      case Ok(checkpoint) =>
        var (after, failure) := AppendData(ep, checkpoint);
        if failure.Some? then (ep, Err(failure.value))
        else (after.(role := Replica, epoch := checkpoint.Cursor().epoch), Ok(checkpoint))
  }

  predicate ValidReplicaIds(ids: seq<Text>) {
    && (forall i :: 0 <= i < |ids| ==> !Blank(ids[i]))
    && (forall i, j :: 0 <= i < j < |ids| ==> ids[i] != ids[j])
  }

  function SetOf(ids: seq<Text>): set<Text> {
    set r | r in ids
  }

  // A replica without an outbox gets an empty one; the others keep theirs.
  function Configured(outbox: Rows, replicas: set<Text>): Rows {
    map r | r in outbox.Keys + replicas :: RowsOf(outbox, r)
  }

  // The role flips before the replica ids are looked at, as in the source.
  function PromoteToActive(ep: Endpoint, checkpoint: Event, ids: seq<Text>): (Endpoint, Option<Error>) {
    if ep.role.Active? && ep.epoch != checkpoint.Cursor().epoch then (ep, Some(PromoteTargetWrongEpoch))
    else if ep.role.Replica? && (Head(ep.log) != checkpoint.Cursor() || HeadHash(ep.log) != checkpoint.checksum) then
      (ep, Some(PromotionNotConverged))
    else
      var flipped := ep.(role := Active, epoch := checkpoint.Cursor().epoch);
      if !ValidReplicaIds(ids) then (flipped, Some(InvalidReplicaIds))
      else
        (flipped.(replicas := SetOf(ids), outbox := Configured(flipped.outbox, SetOf(ids))), None)
  }

  function AckOutbox(ep: Endpoint, replica: Text, eventIds: set<Text>): Endpoint {
    if replica in ep.outbox then ep.(outbox := ep.outbox[replica := ep.outbox[replica] - eventIds]) else ep
  }

  // ----------------------------------------------------------- waiting rows

  // Every waiting row sits under its event's id and holds an event of the log.
  ghost predicate RowsHeld(ep: Endpoint) {
    forall r, id :: r in ep.outbox && id in ep.outbox[r] ==> ep.outbox[r][id].Id() == id && ep.outbox[r][id] in ep.log
  }

  lemma AppendKeepsHeld(ep: Endpoint, e: Event)
    requires RowsHeld(ep)
    ensures RowsHeld(AppendData(ep, e).0)
  {
    hide Decide;
  }

  lemma {:induction false} WindowKeepsHeld(ep: Endpoint, window: seq<Event>)
    requires RowsHeld(ep)
    ensures RowsHeld(CommitWindow(ep, window).0)
  {
    hide RowsHeld;
    if window != [] {
      WindowKeepsHeld(ep, Init(window));
      AppendKeepsHeld(CommitWindow(ep, Init(window)).0, Last(window));
    }
  }

  lemma {:induction false} IngestKeepsHeld(ep: Endpoint, events: seq<Event>)
    requires RowsHeld(ep)
    ensures RowsHeld(IngestAll(ep, events).0)
  {
    hide RowsHeld;
    if events != [] {
      IngestKeepsHeld(ep, Init(events));
      AppendKeepsHeld(IngestAll(ep, Init(events)).0, Last(events));
    }
  }

  // Promotion never drops a waiting row and never invents one.
  lemma FenceKeepsHeld(ep: Endpoint, request: Request, candidate: Text, previous: Digest, now: Instant)
    requires RowsHeld(ep)
    ensures RowsHeld(FenceAsReplica(ep, request, candidate, previous, now).0)
  {
    hide AppendData;
    var built := BuildCheckpoint(ep.project, ep.id, candidate, request, previous, ep.epoch + 1, now);
    if built.Ok? {
      AppendKeepsHeld(ep, built.value);
    }
  }

  lemma FlipKeepsHeld(ep: Endpoint, checkpoint: Event, ids: seq<Text>)
    requires RowsHeld(ep)
    ensures RowsHeld(PromoteToActive(ep, checkpoint, ids).0)
  {
  }

  lemma AckKeepsHeld(ep: Endpoint, replica: Text, eventIds: set<Text>)
    requires RowsHeld(ep)
    ensures RowsHeld(AckOutbox(ep, replica, eventIds))
  {
  }

  // ----------------------------------------------------------- replication

  function AheadOrDiverged(downstream: Cursor, downstreamHash: Digest, source: Cursor, sourceHash: Digest): Option<Error> {
    if CompareCursor(downstream, source) > 0 then Some(ReplicaAhead)
    else if CompareCursor(downstream, source) == 0 && !downstream.IsZero() && downstreamHash != sourceHash then Some(Diverged)
    else None
  }

  function After(log: seq<Event>, cursor: Cursor): seq<Event> {
    if log == [] then []
    else
      var earlier := After(Init(log), cursor);
      if Before(cursor, Last(log).Cursor()) then earlier + [Last(log)] else earlier
  }

  // ingestEvents: one event at a time, stopping at the first refusal.
  function IngestAll(ep: Endpoint, events: seq<Event>): (r: (Endpoint, nat, Option<Error>))
    ensures r.1 <= |events| && (r.2.None? ==> r.1 == |events|)
  {
    if events == [] then (ep, 0, None)
    else
      var (before, applied, failure) := IngestAll(ep, Init(events));
      if failure.Some? then (before, applied, failure)
      else
        var (after, result) := Ingest(before, Last(events));
        (after, if result.None? then applied + 1 else applied, result)
  }

  function Replicate(source: Endpoint, replica: Endpoint): (Endpoint, Option<Error>) {
    var cursor, hash := Head(replica.log), HeadHash(replica.log);
    match AheadOrDiverged(cursor, hash, Head(source.log), HeadHash(source.log))
    case Some(error) => (replica, Some(error))
    case None =>
      var r := IngestAll(replica, After(source.log, cursor));
      (r.0, r.2)
  }

  // ---------------------------------------------------------------- facts

  lemma RefusedUnchanged(ep: Endpoint, e: Event)
    ensures AppendData(ep, e).1.Some? ==> AppendData(ep, e).0 == ep
  {
  }

  lemma AppendDataSound(ep: Endpoint, e: Event)
    requires Sound(ep)
    ensures Sound(AppendData(ep, e).0) && ep.log <= AppendData(ep, e).0.log
    ensures AppendData(ep, e).1.None? <==> e in AppendData(ep, e).0.log
  {
    DecideExact(ep.project, ep.log, e);
    if Decide(ep.project, ep.log, e) == Commit {
      ValidExtend(ep.project, ep.log, e);
    }
  }

  // Reading a valid log after a cursor gives the suffix that lies beyond it.
  lemma {:induction false} AfterIsSuffix(project: Text, log: seq<Event>, cursor: Cursor) returns (k: nat)
    requires Valid(project, log)
    ensures k <= |log| && After(log, cursor) == log[k..]
    ensures k > 0 ==> !Before(cursor, log[k - 1].Cursor())
    ensures k < |log| ==> Before(cursor, log[k].Cursor())
  {
    hide Decide;
    if log == [] {
      k := 0;
    } else {
      k := AfterIsSuffix(project, Init(log), cursor);
      if k < |log| - 1 {
        CursorsIncrease(project, log, k, |log| - 1);
      }
      if Before(cursor, Last(log).Cursor()) {
        assert log[k..] == Init(log)[k..] + [Last(log)];
      } else {
        assert Init(log)[k..] == [];
        k := |log|;
      }
    }
  }

  lemma AfterHeadOfPrefix(project: Text, log: seq<Event>, n: nat)
    requires Valid(project, log) && n <= |log|
    ensures After(log, Head(log[..n])) == log[n..]
  {
    var k := AfterIsSuffix(project, log, Head(log[..n]));
    if 0 < n {
      assert Last(log[..n]) == log[n - 1];
    }
    CursorsAround(project, log, n, k);
  }

  lemma CursorsAround(project: Text, log: seq<Event>, n: nat, k: nat)
    requires Valid(project, log) && n <= |log| && k <= |log|
    requires k > 0 ==> !Before(HeadAt(log, n), log[k - 1].Cursor())
    requires k < |log| ==> Before(HeadAt(log, n), log[k].Cursor())
    ensures n == k
  {
    if n < k {
      if n == 0 {
        CursorPositive(project, log, k - 1);
      } else {
        CursorsIncrease(project, log, n - 1, k - 1);
      }
    } else if k < n - 1 {
      CursorsIncrease(project, log, k, n - 1);
    }
  }

  function HeadAt(log: seq<Event>, n: nat): Cursor
    requires n <= |log|
  {
    if n == 0 then ZERO else log[n - 1].Cursor()
  }

  lemma CursorPositive(project: Text, log: seq<Event>, i: nat)
    requires Valid(project, log) && i < |log|
    ensures Before(ZERO, log[i].Cursor())
  {
    Linked(project, log, i);
  }

  lemma {:induction false} FirstRefusalStopsAll(ep: Endpoint, events: seq<Event>)
    requires events != [] && Ingest(ep, events[0]).1.Some?
    ensures IngestAll(ep, events) == (Ingest(ep, events[0]).0, 0, Ingest(ep, events[0]).1)
  {
    if |events| == 1 {
      assert IngestAll(ep, Init(events)) == (ep, 0, None);
    } else {
      FirstRefusalStopsAll(ep, Init(events));
    }
  }

  // A delivery that stops took everything before the event it stopped at, and that one is refused there.
  lemma {:induction false} StopsAtRefusal(ep: Endpoint, events: seq<Event>)
    ensures var r := IngestAll(ep, events);
      if r.2.Some? then r.1 < |events| && Ingest(r.0, events[r.1]) == (r.0, r.2) && IngestAll(ep, events[..r.1]) == (r.0, r.1, None)
      else r.1 == |events|
  {
    hide AppendData;
    if events != [] {
      StopsAtRefusal(ep, Init(events));
      var before := IngestAll(ep, Init(events));
      assert events[..before.1] == Init(events)[..before.1];
      if before.2.None? {
        assert events[..before.1] == Init(events);
        RefusedUnchanged(before.0, Last(events));
      }
    }
  }

  // One more event: everything before it went in, and it is what comes next.
  lemma IngestOneMore(ep: Endpoint, events: seq<Event>, before: Endpoint, e: Event)
    requires IngestAll(ep, events) == (before, |events|, None)
    requires before.role.Replica? && Decide(before.project, before.log, e) == Commit
    ensures var r := IngestAll(ep, events + [e]);
      r.2.None? && r.0 == before.(log := before.log + [e], outbox := r.0.outbox)
  {
    hide Decide;
    assert Init(events + [e]) == events;
  }

  // A replica holding a prefix takes the rest of the history, event by event.
  lemma {:induction false} IngestRest(project: Text, history: seq<Event>, ep: Endpoint, m: nat)
    requires Valid(project, history) && ep.project == project && ep.role.Replica?
    requires |ep.log| <= m <= |history| && ep.log == history[..|ep.log|]
    ensures var r := IngestAll(ep, history[|ep.log|..m]);
      r.2.None? && r.0 == ep.(log := history[..m], outbox := r.0.outbox)
  {
    hide Decide, Valid;
    var n := |ep.log|;
    if n < m {
      IngestRest(project, history, ep, m - 1);
      var before := IngestAll(ep, history[n..m - 1]).0;
      Admitted(project, history, m - 1);
      IngestOneMore(ep, history[n..m - 1], before, history[m - 1]);
      assert history[n..m] == history[n..m - 1] + [history[m - 1]];
      assert history[..m] == history[..m - 1] + [history[m - 1]];
    } else {
      assert history[n..m] == [];
    }
  }

  predicate CanFollow(source: Endpoint, replica: Endpoint) {
    && replica.log <= source.log
    && (replica.log == source.log || (replica.role.Replica? && replica.project == source.project))
  }

  // Replicate never grafts: it succeeds exactly on a prefix, then leaves the source's log; otherwise nothing changes.
  lemma ReplicateExact(source: Endpoint, replica: Endpoint)
    requires Sound(source) && Sound(replica)
    ensures Replicate(source, replica).1.None? <==> CanFollow(source, replica)
    ensures Replicate(source, replica).1.None? ==>
      Replicate(source, replica).0 == replica.(log := source.log, outbox := Replicate(source, replica).0.outbox)
    ensures Replicate(source, replica).1.Some? ==> Replicate(source, replica).0 == replica
  {
    if replica.log <= source.log {
      ReplicatePrefix(source, replica);
    } else {
      ReplicateForeign(source, replica);
    }
  }

  // Why it refuses: a replica with more than the source is ahead, one that ends at the source's cursor differently diverged.
  lemma ReplicateSays(source: Endpoint, replica: Endpoint)
    requires Sound(source) && Sound(replica)
    ensures source.log < replica.log ==> Replicate(source, replica) == (replica, Some(ReplicaAhead))
    ensures Head(source.log) == Head(replica.log) && source.log != replica.log ==> Replicate(source, replica) == (replica, Some(Diverged))
  {
    if source.log < replica.log {
      var n := |source.log|;
      if n > 0 {
        CursorsIncrease(replica.project, replica.log, n - 1, |replica.log| - 1);
        assert Last(source.log) == replica.log[n - 1];
      } else {
        CursorPositive(replica.project, replica.log, |replica.log| - 1);
      }
    } else if Head(source.log) == Head(replica.log) && source.log != replica.log {
      if source.log != [] {
        CursorPositive(source.project, source.log, |source.log| - 1);
      }
      if replica.log != [] {
        CursorPositive(replica.project, replica.log, |replica.log| - 1);
      }
      if HeadHash(source.log) == HeadHash(replica.log) {
        SameHeadHashSameLog(source.project, source.log, replica.project, replica.log);
      }
    }
  }

  lemma ReplicatePrefix(source: Endpoint, replica: Endpoint)
    requires Sound(source) && Sound(replica) && replica.log <= source.log
    ensures Replicate(source, replica).1.None? <==> CanFollow(source, replica)
    ensures Replicate(source, replica).1.None? ==>
      Replicate(source, replica).0 == replica.(log := source.log, outbox := Replicate(source, replica).0.outbox)
    ensures Replicate(source, replica).1.Some? ==> Replicate(source, replica).0 == replica
  {
    hide Decide;
    var n := |replica.log|;
    assert replica.log == source.log[..n];
    PrefixNotAhead(source.project, source.log, n);
    AfterHeadOfPrefix(source.project, source.log, n);
    if n == |source.log| {
      assert source.log[n..] == [];
    } else if CanFollow(source, replica) {
      IngestRest(source.project, source.log, replica, |source.log|);
      assert source.log[n..|source.log|] == source.log[n..];
      assert source.log[..|source.log|] == source.log;
    } else {
      Linked(source.project, source.log, n);
      NotAFollower(replica, source.log[n]);
      FirstRefusalStopsAll(replica, source.log[n..]);
    }
  }

  lemma NotAFollower(ep: Endpoint, e: Event)
    requires !ep.role.Replica? || e.fields.projectId != ep.project
    ensures Ingest(ep, e).1.Some? && Ingest(ep, e).0 == ep
  {
  }

  lemma PrefixNotAhead(project: Text, log: seq<Event>, n: nat)
    requires Valid(project, log) && n <= |log|
    ensures AheadOrDiverged(Head(log[..n]), HeadHash(log[..n]), Head(log), HeadHash(log)).None?
  {
    if n == |log| {
      assert log[..n] == log;
    } else if n == 0 {
      CursorPositive(project, log, |log| - 1);
    } else {
      CursorsIncrease(project, log, n - 1, |log| - 1);
      assert Last(log[..n]) == log[n - 1];
    }
  }

  lemma ReplicateForeign(source: Endpoint, replica: Endpoint)
    requires Sound(source) && Sound(replica) && !(replica.log <= source.log)
    ensures Replicate(source, replica).1.Some? && Replicate(source, replica).0 == replica
  {
    var cursor, hash := Head(replica.log), HeadHash(replica.log);
    if AheadOrDiverged(cursor, hash, Head(source.log), HeadHash(source.log)).None? {
      var k := AfterIsSuffix(source.project, source.log, cursor);
      EqualHeadsDiverge(source, replica);
      assert k < |source.log|;
      ForeignNotNext(source, replica, k);
      FirstRefusalStopsAll(replica, source.log[k..]);
    }
  }

  // A replica that is not a prefix but reaches the source's own cursor is reported as diverged or ahead.
  lemma EqualHeadsDiverge(source: Endpoint, replica: Endpoint)
    requires Sound(source) && Sound(replica) && !(replica.log <= source.log)
    ensures CompareCursor(Head(replica.log), Head(source.log)) >= 0 ==>
      AheadOrDiverged(Head(replica.log), HeadHash(replica.log), Head(source.log), HeadHash(source.log)).Some?
  {
    CursorPositive(replica.project, replica.log, |replica.log| - 1);
    if HeadHash(replica.log) == HeadHash(source.log) {
      SameHeadHashSameLog(replica.project, replica.log, source.project, source.log);
    }
  }

  // The source's first event beyond such a replica's head is refused: it neither extends nor repeats that log.
  lemma ForeignNotNext(source: Endpoint, replica: Endpoint, k: nat)
    requires Sound(source) && Sound(replica) && !(replica.log <= source.log)
    requires k < |source.log| && Before(Head(replica.log), source.log[k].Cursor())
    ensures Ingest(replica, source.log[k]).1.Some? && Ingest(replica, source.log[k]).0 == replica
  {
    var e := source.log[k];
    DecideExact(replica.project, replica.log, e);
    BeyondHeadNotMember(replica.project, replica.log, e);
    if Decide(replica.project, replica.log, e) == Commit {
      CommitPins(replica.project, replica.log, e);
      Admitted(source.project, source.log, k);
      CommitPins(source.project, source.log[..k], e);
      SameHeadHashSameLog(replica.project, replica.log, source.project, source.log[..k]);
    }
  }

  lemma BeyondHeadNotMember(project: Text, log: seq<Event>, e: Event)
    requires Valid(project, log) && Before(Head(log), e.Cursor())
    ensures e !in log
  {
    forall i | 0 <= i < |log| ensures log[i] != e {
      if i < |log| - 1 {
        CursorsIncrease(project, log, i, |log| - 1);
      }
    }
  }
}
