/** Portable checkpoints of a journal: taking, verifying and restoring them, and comparing two journals at a cursor. */
module Snapshots {
  import opened Events
  import opened Chain
  import E = Endpoints
  import M = MemoryJournals
  import R = Replication
  import S = Sorting

  // createdAt is informative only.
  datatype Snapshot = Snapshot(schemaV1: bool, project: Text, source: Text, cursor: Cursor, contentHash: Digest,
                               eventCount: int, createdAt: Instant, events: seq<Event>)

  // "checkpoint-verify"
  const SCRATCH: Text := [99, 104, 101, 99, 107, 112, 111, 105, 110, 116, 45, 118, 101, 114, 105, 102, 121]

  // The events up to the first one beyond the cursor.
  function UpTo(log: seq<Event>, cursor: Cursor): seq<Event> {
    if log == [] || CompareCursor(log[0].Cursor(), cursor) > 0 then [] else [log[0]] + UpTo(log[1..], cursor)
  }

  function Take(log: seq<Event>, source: Text, at: Cursor, now: Instant): Result<Snapshot> {
    if Blank(source) then Err(InvalidArgument)
    else if Head(log).IsZero() then Err(CheckpointEmpty)
    else
      var target := if at.IsZero() then Head(log) else at;
      if CompareCursor(target, Head(log)) > 0 then Err(CheckpointAhead)
      else
        var events := UpTo(log, target);
        if events == [] || Last(events).Cursor() != target then Err(CheckpointCursorNotFound)
        else
          var hash := if target == Head(log) then HeadHash(log) else HeadHash(events);
          Ok(Snapshot(true, events[0].fields.projectId, source, target, hash, |events|, now, events))
  }

  // A throwaway replica of the checkpoint's project.
  function Scratch(project: Text, epoch: int): E.Endpoint {
    M.Fresh(M.Options(project, SCRATCH, Replica, epoch, []))
  }

  function VerifySnapshot(c: Snapshot): Option<Error> {
    if !c.schemaV1 || Blank(c.project) || Blank(c.source) then Some(CheckpointInvalid)
    else if c.events == [] || |c.events| != c.eventCount || c.events[0].Cursor().epoch < 1 then Some(CheckpointInvalid)
    else
      var (replayed, _, failure) := E.IngestAll(Scratch(c.project, c.events[0].Cursor().epoch), c.events);
      if failure.Some? || Head(replayed.log) != c.cursor || HeadHash(replayed.log) != c.contentHash then Some(CheckpointInvalid)
      else None
  }

  function Restore(c: Snapshot, target: E.Endpoint, targetId: Text): (E.Endpoint, Option<Error>) {
    if Blank(targetId) then (target, Some(InvalidArgument))
    else if VerifySnapshot(c).Some? then (target, VerifySnapshot(c))
    else if !Head(target.log).IsZero() then (target, Some(RestoreTargetNotEmpty))
    else
      var r := E.IngestAll(target, c.events);
      (r.0, r.2)
  }

  // --------------------------------------------------------------- positions

  lemma {:induction false} UpToIsPrefix(log: seq<Event>, cursor: Cursor, n: nat)
    requires n <= |log|
    requires forall i :: 0 <= i < n ==> CompareCursor(log[i].Cursor(), cursor) <= 0
    requires n < |log| ==> CompareCursor(log[n].Cursor(), cursor) > 0
    ensures UpTo(log, cursor) == log[..n]
  {
    if n > 0 {
      UpToIsPrefix(log[1..], cursor, n - 1);
      assert log[..n] == [log[0]] + log[1..][..n - 1];
    }
  }

  // Up to the cursor of position i means up to and including position i.
  lemma UpToPosition(project: Text, log: seq<Event>, i: nat)
    requires Valid(project, log) && i < |log|
    ensures UpTo(log, log[i].Cursor()) == log[..i + 1]
  {
    forall j | 0 <= j < i + 1 ensures CompareCursor(log[j].Cursor(), log[i].Cursor()) <= 0 {
      if j < i {
        CursorsIncrease(project, log, j, i);
      }
    }
    if i + 1 < |log| {
      CursorsIncrease(project, log, i, i + 1);
    }
    UpToIsPrefix(log, log[i].Cursor(), i + 1);
  }

  predicate HasCursor(log: seq<Event>, cursor: Cursor) {
    exists i :: 0 <= i < |log| && log[i].Cursor() == cursor
  }

  lemma {:induction false} UpToFinds(log: seq<Event>, cursor: Cursor)
    ensures UpTo(log, cursor) != [] && Last(UpTo(log, cursor)).Cursor() == cursor ==> HasCursor(log, cursor)
    ensures UpTo(log, cursor) <= log
  {
    if log != [] && CompareCursor(log[0].Cursor(), cursor) <= 0 {
      UpToFinds(log[1..], cursor);
      var rest := UpTo(log[1..], cursor);
      assert log == [log[0]] + log[1..];
      if rest != [] && Last(rest).Cursor() == cursor {
        assert Last([log[0]] + rest) == Last(rest);
        var i :| 0 <= i < |log[1..]| && log[1..][i].Cursor() == cursor;
        assert log[i + 1].Cursor() == cursor;
      }
    }
  }

  // A checkpoint can be taken exactly at the cursors the journal has (or at its head); it then holds the history up to there.
  lemma TakeExact(project: Text, log: seq<Event>, source: Text, at: Cursor, now: Instant)
    requires Valid(project, log)
    ensures Take(log, source, at, now).Ok? <==> !Blank(source) && log != [] && (at.IsZero() || HasCursor(log, at))
    ensures Take(log, source, at, now).Ok? ==>
      var s := Take(log, source, at, now).value;
      && HasCursor(log, s.cursor) && s.cursor == (if at.IsZero() then Head(log) else at)
      && s.schemaV1 && s.source == source && s.eventCount == |s.events|
      && s.project == project && s.events != [] && s.events == UpTo(log, s.cursor) && s.events <= log
      && Head(s.events) == s.cursor && s.contentHash == HeadHash(s.events)
      && (at.IsZero() ==> s.events == log)
  {
    if log != [] {
      var n := |log| - 1;
      Linked(project, log, n);
      var target := if at.IsZero() then Head(log) else at;
      UpToFinds(log, target);
      UpToPosition(project, log, n);
      assert log[..n + 1] == log;
      if HasCursor(log, target) {
        var i :| 0 <= i < |log| && log[i].Cursor() == target;
        TakeAt(project, log, i);
      }
      assert at.IsZero() ==> log[n].Cursor() == target;
      if UpTo(log, target) != [] {
        assert UpTo(log, target)[0] == log[0];
        Linked(project, log, 0);
      }
    }
  }

  lemma TakeAt(project: Text, log: seq<Event>, i: nat)
    requires Valid(project, log) && i < |log|
    ensures UpTo(log, log[i].Cursor()) == log[..i + 1] && Last(log[..i + 1]) == log[i]
    ensures CompareCursor(log[i].Cursor(), Head(log)) <= 0
    ensures log[i].Cursor() == Head(log) ==> i == |log| - 1
  {
    UpToPosition(project, log, i);
    if i < |log| - 1 {
      CursorsIncrease(project, log, i, |log| - 1);
    }
  }

  // ------------------------------------------------------------------ replay

  // Two replicas of one project with equal logs take the same events and end with equal logs.
  lemma {:induction false} ReplayIsTheSame(a: E.Endpoint, b: E.Endpoint, events: seq<Event>)
    requires a.project == b.project && a.log == b.log && a.role.Replica? && b.role.Replica?
    ensures var r, s := E.IngestAll(a, events), E.IngestAll(b, events);
      && r.0.log == s.0.log && r.1 == s.1 && r.2 == s.2
      && r.0 == a.(log := r.0.log, outbox := r.0.outbox) && s.0 == b.(log := s.0.log, outbox := s.0.outbox)
  {
    hide Decide;
    if events != [] {
      ReplayIsTheSame(a, b, Init(events));
    }
  }

  lemma {:induction false} ReplayIsValid(a: E.Endpoint, events: seq<Event>)
    requires E.Sound(a)
    ensures E.Sound(E.IngestAll(a, events).0)
  {
    hide Valid, E.AppendData;
    if events != [] {
      ReplayIsValid(a, Init(events));
      E.AppendDataSound(E.IngestAll(a, Init(events)).0, Last(events));
    }
  }

  function Replayed(c: Snapshot): seq<Event>
    requires c.events != []
  {
    E.IngestAll(Scratch(c.project, c.events[0].Cursor().epoch), c.events).0.log
  }

  // A verified checkpoint replays, completely, to a valid log that its content hash names.
  lemma VerifiedReplays(c: Snapshot)
    requires VerifySnapshot(c).None?
    ensures Valid(c.project, Replayed(c)) && HeadHash(Replayed(c)) == c.contentHash && Head(Replayed(c)) == c.cursor
    ensures Replayed(c) != []
    ensures E.IngestAll(Scratch(c.project, c.events[0].Cursor().epoch), c.events).2.None?
  {
    hide E.AppendData;
    var scratch := Scratch(c.project, c.events[0].Cursor().epoch);
    ReplayIsValid(scratch, c.events);
    ReplayIsTheSame(scratch, scratch, c.events);
    R.IngestGrows(scratch, c.events);
    assert c.events[0] in Replayed(c);
  }

  // The events are a history from its beginning, in order, with repeats of what came before at any place.
  predicate Unrolls(events: seq<Event>, history: seq<Event>) {
    if events == [] then history == []
    else
      || (Unrolls(Init(events), history) && Last(events) in history)
      || (history != [] && Unrolls(Init(events), Init(history)) && Last(events) == Last(history))
  }

  // What a checkpoint says of itself, apart from its chain.
  predicate WellStated(c: Snapshot) {
    c.schemaV1 && !Blank(c.project) && !Blank(c.source) && |c.events| == c.eventCount
  }

  predicate Holds(c: Snapshot, history: seq<Event>) {
    Unrolls(c.events, history) && history != [] && Head(history) == c.cursor && HeadHash(history) == c.contentHash
  }

  lemma {:induction false} ReplayUnrolls(ep: E.Endpoint, events: seq<Event>)
    requires E.Sound(ep) && ep.log == [] && ep.role.Replica? && E.IngestAll(ep, events).2.None?
    ensures Unrolls(events, E.IngestAll(ep, events).0.log) && E.Sound(E.IngestAll(ep, events).0)
  {
    hide Valid, E.AppendData;
    if events != [] {
      ReplayUnrolls(ep, Init(events));
      StepUnrolls(E.IngestAll(ep, Init(events)).0, Last(events));
    }
  }

  lemma StepUnrolls(ep: E.Endpoint, e: Event)
    requires E.Sound(ep) && E.Ingest(ep, e).1.None?
    ensures var after := E.Ingest(ep, e).0;
      E.Sound(after) && ((after.log == ep.log && e in ep.log) || (after.log != [] && Init(after.log) == ep.log && Last(after.log) == e))
  {
    hide Valid;
    E.AppendDataSound(ep, e);
  }

  lemma {:induction false} UnrolledReplays(ep: E.Endpoint, events: seq<Event>, history: seq<Event>)
    requires ep.log == [] && ep.role.Replica? && Valid(ep.project, history) && Unrolls(events, history)
    ensures E.IngestAll(ep, events).2.None? && E.IngestAll(ep, events).0.log == history
    ensures E.IngestAll(ep, events).0 == ep.(log := history, outbox := E.IngestAll(ep, events).0.outbox)
    ensures forall e :: e in events ==> e in history
  {
    hide Decide;
    if events != [] {
      if Unrolls(Init(events), history) && Last(events) in history {
        UnrolledReplays(ep, Init(events), history);
        DecideExact(ep.project, history, Last(events));
      } else {
        UnrolledReplays(ep, Init(events), Init(history));
        assert Init(history) + [Last(history)] == history;
      }
      forall e | e in events ensures e in history {
        if e != Last(events) {
          assert e in Init(events);
        }
      }
    }
  }

  // A checkpoint verifies exactly if it is well stated and its events are a valid history of its project, repeats aside,
  // that ends at its cursor with its content hash.
  lemma VerifyExact(c: Snapshot)
    ensures VerifySnapshot(c).None? <==> WellStated(c) && exists history :: Valid(c.project, history) && Holds(c, history)
    ensures VerifySnapshot(c).Some? ==> VerifySnapshot(c) == Some(CheckpointInvalid)
  {
    hide Valid, E.IngestAll, Unrolls, Blank;
    if VerifySnapshot(c).None? {
      var scratch := Scratch(c.project, c.events[0].Cursor().epoch);
      VerifiedReplays(c);
      assert E.Sound(scratch) by { EmptyIsValid(c.project); }
      ReplayUnrolls(scratch, c.events);
      assert Holds(c, Replayed(c));
    }
    if history :| Valid(c.project, history) && Holds(c, history) {
      NothingUnrolls(c.events, history);
      var scratch := Scratch(c.project, c.events[0].Cursor().epoch);
      UnrolledReplays(scratch, c.events, history);
      FirstEpoch(c.project, history, c.events[0]);
    }
  }

  lemma NothingUnrolls(events: seq<Event>, history: seq<Event>)
    requires Unrolls(events, history) && history != []
    ensures events != []
  {
  }

  lemma FirstEpoch(project: Text, history: seq<Event>, e: Event)
    requires Valid(project, history) && e in history
    ensures e.Cursor().epoch >= 1
  {
    var i :| 0 <= i < |history| && history[i] == e;
    Linked(project, history, i);
  }

  // Restore is all or nothing: it fills exactly an empty replica of the checkpoint's project, and never makes it active.
  lemma RestoreExact(c: Snapshot, target: E.Endpoint, targetId: Text)
    requires E.Sound(target)
    ensures var (after, failure) := Restore(c, target, targetId);
      && (failure.None? <==> !Blank(targetId) && VerifySnapshot(c).None? && target.log == [] && target.role.Replica? && target.project == c.project)
      && (failure.None? ==> after == target.(log := Replayed(c), outbox := after.outbox))
      && (failure.Some? ==> after == target)
  {
    hide E.AppendData, Valid, VerifySnapshot;
    EmptyHead(target);
    if !Blank(targetId) && VerifySnapshot(c).None? && target.log == [] {
      VerifiedHasEvents(c);
      VerifiedReplays(c);
      if target.role.Replica? && target.project == c.project {
        ReplayIsTheSame(Scratch(c.project, c.events[0].Cursor().epoch), target, c.events);
      } else {
        FirstIsForeign(c, target);
        E.FirstRefusalStopsAll(target, c.events);
      }
    }
  }

  lemma EmptyHead(ep: E.Endpoint)
    requires E.Sound(ep)
    ensures Head(ep.log).IsZero() <==> ep.log == []
  {
    if ep.log != [] {
      Linked(ep.project, ep.log, |ep.log| - 1);
    }
  }

  lemma VerifiedHasEvents(c: Snapshot)
    requires VerifySnapshot(c).None?
    ensures c.events != []
  {
  }

  // Every event of a verified checkpoint belongs to its project, so a foreign or active target refuses the first one.
  lemma FirstIsForeign(c: Snapshot, target: E.Endpoint)
    requires VerifySnapshot(c).None? && (!target.role.Replica? || target.project != c.project)
    ensures E.Ingest(target, c.events[0]).1.Some? && E.Ingest(target, c.events[0]).0 == target
  {
    hide Decide;
    var scratch := Scratch(c.project, c.events[0].Cursor().epoch);
    VerifiedReplays(c);
    R.IngestGrows(scratch, c.events);
    var i :| 0 <= i < |Replayed(c)| && Replayed(c)[i] == c.events[0];
    Linked(c.project, Replayed(c), i);
    E.NotAFollower(target, c.events[0]);
  }

  // Round trip: a checkpoint taken at any cursor of a valid journal verifies, and restores exactly that much of it.
  lemma RoundTrip(project: Text, log: seq<Event>, source: Text, at: Cursor, now: Instant, target: E.Endpoint, targetId: Text)
    requires Valid(project, log) && Take(log, source, at, now).Ok?
    requires target.log == [] && target.role.Replica? && target.project == project && !Blank(targetId)
    ensures var s := Take(log, source, at, now).value;
      && VerifySnapshot(s).None?
      && Restore(s, target, targetId).1.None?
      && Restore(s, target, targetId).0.log == s.events == UpTo(log, s.cursor)
      && (at.IsZero() ==> Restore(s, target, targetId).0.log == log)
  {
    hide Valid, E.IngestAll;
    TakeExact(project, log, source, at, now);
    var s := Take(log, source, at, now).value;
    ValidPrefix(project, log, |s.events|);
    assert s.events == log[..|s.events|];
    TakenVerifies(project, s);
    PrefixReplays(target, s.events);
    assert Valid(target.project, target.log) by { EmptyIsValid(project); }
    EmptyHead(target);
  }

  lemma EmptyIsValid(project: Text)
    ensures Valid(project, [])
  {
  }

  lemma PrefixReplays(target: E.Endpoint, events: seq<Event>)
    requires Valid(target.project, events) && target.log == [] && target.role.Replica?
    ensures E.IngestAll(target, events).2.None? && E.IngestAll(target, events).0.log == events
  {
    hide Valid, E.IngestAll;
    E.IngestRest(target.project, events, target, |events|);
    assert events[0..|events|] == events && events[..|events|] == events;
  }

  lemma TakenVerifies(project: Text, s: Snapshot)
    requires Valid(project, s.events) && s.events != [] && s.project == project && s.schemaV1 && !Blank(s.source)
    requires s.eventCount == |s.events| && Head(s.events) == s.cursor && HeadHash(s.events) == s.contentHash
    ensures VerifySnapshot(s).None?
  {
    hide Valid, E.IngestAll;
    Linked(project, s.events, 0);
    PrefixReplays(Scratch(project, s.events[0].Cursor().epoch), s.events);
  }

  // The content hash names the restored history: equal hashes restore equal logs, whoever took the checkpoints.
  lemma EqualHashRestoresEqual(c: Snapshot, d: Snapshot, s: E.Endpoint, t: E.Endpoint, sId: Text, tId: Text)
    requires c.contentHash == d.contentHash && E.Sound(s) && E.Sound(t)
    requires Restore(c, s, sId).1.None? && Restore(d, t, tId).1.None?
    ensures c.project == d.project && Restore(c, s, sId).0.log == Restore(d, t, tId).0.log
  {
    hide Valid, E.IngestAll, Restore, VerifySnapshot;
    RestoreExact(c, s, sId);
    RestoreExact(d, t, tId);
    VerifiedHasEvents(c);
    VerifiedHasEvents(d);
    VerifiedReplays(c);
    VerifiedReplays(d);
    SameHeadHashSameLog(c.project, Replayed(c), d.project, Replayed(d));
    Linked(c.project, Replayed(c), 0);
    Linked(d.project, Replayed(d), 0);
  }

  // -------------------------------------------------------------- comparison

  datatype Comparison = Comparison(at: Cursor, sourceHash: Digest, targetHash: Digest, equivalent: bool)

  function Find(log: seq<Event>, at: Cursor): Option<Digest> {
    if log == [] then None else if log[0].Cursor() == at then Some(log[0].checksum) else Find(log[1..], at)
  }

  function HashAt(log: seq<Event>, at: Cursor): Result<Digest> {
    if at == Head(log) then Ok(HeadHash(log))
    else if CompareCursor(at, Head(log)) > 0 then Err(ReplicaAhead)
    else
      match Find(log, at)
      case Some(hash) => Ok(hash)
      case None => Err(CheckpointCursorNotFound)
  }

  function Resolve(a: seq<Event>, b: seq<Event>, at: Cursor): Cursor {
    if !at.IsZero() then at else if CompareCursor(Head(b), Head(a)) < 0 then Head(b) else Head(a)
  }

  function Compare(a: seq<Event>, b: seq<Event>, at: Cursor): Result<Comparison> {
    var resolved := Resolve(a, b, at);
    if resolved.IsZero() then Err(CheckpointEmpty)
    else
      match HashAt(a, resolved)
      case Err(error) => Err(error)
      case Ok(x) =>
        match HashAt(b, resolved)
        case Err(error) => Err(error)
        case Ok(y) => Ok(Comparison(resolved, x, y, x == y))
  }

  lemma {:induction false} FindExact(log: seq<Event>, at: Cursor)
    ensures Find(log, at).Some? <==> HasCursor(log, at)
    ensures Find(log, at).Some? ==> exists i :: 0 <= i < |log| && log[i].Cursor() == at && Find(log, at).value == log[i].checksum
  {
    if log != [] {
      FindExact(log[1..], at);
      if log[0].Cursor() != at && Find(log, at).Some? {
        var i :| 0 <= i < |log[1..]| && log[1..][i].Cursor() == at && Find(log[1..], at).value == log[1..][i].checksum;
        assert log[i + 1].Cursor() == at && Find(log, at).value == log[i + 1].checksum;
      }
      if HasCursor(log, at) && log[0].Cursor() != at {
        var i :| 0 <= i < |log| && log[i].Cursor() == at;
        assert log[1..][i - 1].Cursor() == at;
      }
    }
  }

  // The hash at a cursor is found exactly when an event sits there, and it is that event's checksum.
  lemma HashAtExact(project: Text, log: seq<Event>, at: Cursor) returns (i: nat)
    requires Valid(project, log) && !at.IsZero()
    ensures HashAt(log, at).Ok? <==> HasCursor(log, at)
    ensures HashAt(log, at).Ok? ==> i < |log| && log[i].Cursor() == at && HashAt(log, at).value == log[i].checksum
  {
    hide Valid;
    i := 0;
    FindExact(log, at);
    if log != [] && at == Head(log) {
      i := |log| - 1;
    } else if HasCursor(log, at) {
      i :| 0 <= i < |log| && log[i].Cursor() == at && Find(log, at).value == log[i].checksum;
      if i < |log| - 1 {
        CursorsIncrease(project, log, i, |log| - 1);
      }
    }
  }

  // Whenever the comparison returns, its verdict is exact: equivalent if and only if the two histories up to the cursor are one.
  lemma ComparisonExact(p: Text, a: seq<Event>, q: Text, b: seq<Event>, at: Cursor)
    requires Valid(p, a) && Valid(q, b)
    ensures var at' := Resolve(a, b, at);
      && (Compare(a, b, at).Ok? <==> !at'.IsZero() && HasCursor(a, at') && HasCursor(b, at'))
      && (Compare(a, b, at).Ok? ==> (Compare(a, b, at).value.equivalent <==> UpTo(a, at') == UpTo(b, at')))
  {
    hide Valid, HashAt;
    var c := Resolve(a, b, at);
    if !c.IsZero() {
      var i := HashAtExact(p, a, c);
      var j := HashAtExact(q, b, c);
      if HasCursor(a, c) && HasCursor(b, c) {
        UpToPosition(p, a, i);
        UpToPosition(q, b, j);
        if a[i].checksum == b[j].checksum {
          SameChecksumSameHistory(p, a, i, q, b, j);
        }
        if a[..i + 1] == b[..j + 1] {
          assert |a[..i + 1]| == |b[..j + 1]|;
          assert a[..i + 1][i] == b[..j + 1][i];
        }
      }
    }
  }

  // Without a cursor a log and any lagging copy of it, either way round, are compared where both are, and found equivalent.
  lemma LaggingIsEquivalent(project: Text, log: seq<Event>, n: nat)
    requires Valid(project, log) && 0 < n <= |log|
    ensures var at, hash := log[n - 1].Cursor(), log[n - 1].checksum;
      && Compare(log, log[..n], ZERO) == Ok(Comparison(at, hash, hash, true))
      && Compare(log[..n], log, ZERO) == Ok(Comparison(at, hash, hash, true))
  {
    hide Valid, HashAt;
    ValidPrefix(project, log, n);
    Linked(project, log, n - 1);
    if n < |log| {
      CursorsIncrease(project, log, n - 1, |log| - 1);
    }
    HashInPrefix(project, log, |log|, n);
    HashInPrefix(project, log, n, n);
    assert log[..|log|] == log;
  }

  lemma HashInPrefix(project: Text, log: seq<Event>, m: nat, n: nat)
    requires Valid(project, log) && 0 < n <= m <= |log|
    ensures HashAt(log[..m], log[n - 1].Cursor()) == Ok(log[n - 1].checksum)
  {
    hide Valid, HashAt;
    ValidPrefix(project, log, m);
    CursorPositiveAt(project, log, n - 1);
    assert log[..m][n - 1] == log[n - 1];
    var i := HashAtExact(project, log[..m], log[n - 1].Cursor());
    if i < n - 1 {
      CursorsIncrease(project, log, i, n - 1);
    } else if n - 1 < i < m {
      CursorsIncrease(project, log, n - 1, i);
    }
  }

  lemma CursorPositiveAt(project: Text, log: seq<Event>, i: nat)
    requires Valid(project, log) && i < |log|
    ensures !log[i].Cursor().IsZero()
  {
    Linked(project, log, i);
  }

  // Two logs that part before the lower of their heads are found different there, or the lower head is not in the other log.
  lemma PartedIsNotEquivalent(p: Text, a: seq<Event>, q: Text, b: seq<Event>)
    requires Valid(p, a) && Valid(q, b) && a != [] && b != []
    requires var n := if |a| <= |b| then |a| else |b|; a[..n] != b[..n]
    ensures Compare(a, b, ZERO).Ok? ==> !Compare(a, b, ZERO).value.equivalent
  {
    hide Valid, HashAt;
    ComparisonExact(p, a, q, b, ZERO);
    var at := Resolve(a, b, ZERO);
    if Compare(a, b, ZERO).Ok? {
      var i :| 0 <= i < |a| && a[i].Cursor() == at;
      var j :| 0 <= j < |b| && b[j].Cursor() == at;
      UpToPosition(p, a, i);
      UpToPosition(q, b, j);
      SharedUpToHead(p, a, q, b, i, j);
    }
  }

  lemma SharedUpToHead(p: Text, a: seq<Event>, q: Text, b: seq<Event>, i: nat, j: nat)
    requires Valid(p, a) && Valid(q, b) && i < |a| && j < |b| && a[i].Cursor() == b[j].Cursor() == Resolve(a, b, ZERO)
    ensures var n := if |a| <= |b| then |a| else |b|; a[..i + 1] == b[..j + 1] ==> a[..n] == b[..n]
  {
    hide Valid;
    if i < |a| - 1 {
      CursorsIncrease(p, a, i, |a| - 1);
    }
    if j < |b| - 1 {
      CursorsIncrease(q, b, j, |b| - 1);
    }
    if a[..i + 1] == b[..j + 1] {
      assert |a[..i + 1]| == |b[..j + 1]|;
    }
  }

  // ------------------------------------------------------------- over journals

  lemma ValidIsSorted(project: Text, log: seq<Event>)
    requires Valid(project, log)
    ensures E.After(log, ZERO) == log && S.Sort(log, M.EventCursor) == log
  {
    E.AfterHeadOfPrefix(project, log, 0);
    forall i, j | 0 <= i < j < |log| ensures Before(M.EventCursor(log[i]), M.EventCursor(log[j])) {
      CursorsIncrease(project, log, i, j);
    }
    S.SortFacts(log, M.EventCursor);
    S.AscendingIsUnique(S.Sort(log, M.EventCursor), log, M.EventCursor);
  }

  method NewCheckpoint(source: M.MemoryJournal, sourceId: Text, at: Cursor, now: Instant) returns (r: Result<Snapshot>)
    requires source.Consistent()
    ensures r == Take(source.events, sourceId, at, now)
  {
    hide Valid, M.Indexed, S.Sort, E.After;
    if Blank(sourceId) {
      return Err(InvalidArgument);
    }
    if source.head.IsZero() {
      return Err(CheckpointEmpty);
    }
    var target := if at.IsZero() then source.head else at;
    if CompareCursor(target, source.head) > 0 {
      return Err(CheckpointAhead);
    }
    var all := source.After(ZERO);
    ValidIsSorted(source.projectId, source.events);
    all := S.Sort(all, M.EventCursor);
    var events, hash := [], NoDigest;
    var i := 0;
    while i < |all|
      invariant i <= |all| && events == all[..i] && hash == HeadHash(events)
      invariant forall j :: 0 <= j < i ==> CompareCursor(all[j].Cursor(), target) <= 0
    {
      if CompareCursor(all[i].Cursor(), target) > 0 {
        break;
      }
      events := events + [all[i]];
      hash := all[i].checksum;
      i := i + 1;
    }
    UpToIsPrefix(all, target, i);
    if events == [] || Last(events).Cursor() != target {
      return Err(CheckpointCursorNotFound);
    }
    if target == source.head {
      hash := source.headHash;
    }
    r := Ok(Snapshot(true, events[0].fields.projectId, sourceId, target, hash, |events|, now, events));
  }

  lemma RefusedReplay(scratch: E.Endpoint, events: seq<Event>, n: nat)
    requires n < |events| && E.IngestAll(scratch, events[..n + 1]).2.Some?
    ensures E.IngestAll(scratch, events).2.Some?
  {
    R.RefusalEndsDelivery(scratch, events, n + 1);
  }

  lemma IngestOne(ep: E.Endpoint, events: seq<Event>, n: nat)
    requires n < |events| && E.IngestAll(ep, events[..n]).2.None?
    ensures var before := E.IngestAll(ep, events[..n]).0;
      E.IngestAll(ep, events[..n + 1]).0 == E.Ingest(before, events[n]).0 && E.IngestAll(ep, events[..n + 1]).2 == E.Ingest(before, events[n]).1
  {
    assert Init(events[..n + 1]) == events[..n];
  }

  lemma ForeignRefused(ep: E.Endpoint, e: Event)
    requires e.fields.projectId != ep.project
    ensures E.Ingest(ep, e).1.Some?
  {
  }

  // Replays the events into a throwaway replica instead of stating the chaining rules again.
  method VerifyCheckpoint(c: Snapshot) returns (failure: Option<Error>)
    ensures failure == VerifySnapshot(c)
  {
    hide Valid, M.Indexed, E.IngestAll, E.Ingest, Decide;
    if !c.schemaV1 || Blank(c.project) || Blank(c.source) {
      return Some(CheckpointInvalid);
    }
    if |c.events| == 0 || |c.events| != c.eventCount {
      return Some(CheckpointInvalid);
    }
    var scratch, refused := M.NewMemoryJournal(M.Options(c.project, SCRATCH, Replica, c.events[0].Cursor().epoch, []));
    ScratchId();
    if refused.Some? {
      return Some(CheckpointInvalid);
    }
    ghost var start := scratch.State();
    NothingReplayed(start);
    for i := 0 to |c.events|
      invariant scratch.Consistent() && scratch.projectId == c.project
      invariant scratch.State() == E.IngestAll(start, c.events[..i]).0 && E.IngestAll(start, c.events[..i]).2.None?
    {
      IngestOne(start, c.events, i);
      if c.events[i].fields.projectId != c.project {
        ForeignRefused(scratch.State(), c.events[i]);
        RefusedReplay(start, c.events, i);
        return Some(CheckpointInvalid);
      }
      failure := scratch.IngestReplica(c.events[i]);
      if failure.Some? {
        RefusedReplay(start, c.events, i);
        return Some(CheckpointInvalid);
      }
    }
    assert c.events[..|c.events|] == c.events;
    failure := if scratch.head != c.cursor || scratch.headHash != c.contentHash then Some(CheckpointInvalid) else None;
  }

  lemma ScratchId()
    ensures !Blank(SCRATCH)
  {
    assert !IsSpace(SCRATCH[0]);
  }

  lemma NothingReplayed(ep: E.Endpoint)
    ensures E.IngestAll(ep, []) == (ep, 0, None)
  {
  }

  method RestoreInto(c: Snapshot, target: M.MemoryJournal, targetId: Text) returns (health: R.Health, failure: Option<Error>)
    requires target.Consistent()
    modifies target
    ensures target.Consistent()
    ensures (target.State(), failure) == Restore(c, old(target.State()), targetId)
    ensures failure.None? ==> target.events == Replayed(c) && target.role.Replica? && health.lag == 0
  {
    hide Valid, M.Indexed, E.IngestAll, Decide, VerifySnapshot;
    RestoreExact(c, target.State(), targetId);
    health := R.Health(ZERO, 0);
    if Blank(targetId) {
      return health, Some(InvalidArgument);
    }
    failure := VerifyCheckpoint(c);
    if failure.Some? {
      return;
    }
    if !target.head.IsZero() {
      return R.Health(target.head, 0), Some(RestoreTargetNotEmpty);
    }
    var applied;
    health, applied, failure := R.IngestEvents(target, ZERO, c.events);
  }

  lemma {:induction false} FindSkips(log: seq<Event>, at: Cursor, n: nat)
    requires n <= |log| && forall i :: 0 <= i < n ==> log[i].Cursor() != at
    ensures Find(log, at) == Find(log[n..], at)
  {
    if n > 0 {
      FindSkips(log[1..], at, n - 1);
      assert log[1..][n - 1..] == log[n..];
    } else {
      assert log[n..] == log;
    }
  }

  method HashAtCursor(journal: M.MemoryJournal, at: Cursor) returns (r: Result<Digest>)
    requires journal.Consistent()
    ensures r == HashAt(journal.events, at)
  {
    hide Valid, M.Indexed, S.Sort, E.After;
    if at == journal.head {
      return Ok(journal.headHash);
    }
    if CompareCursor(at, journal.head) > 0 {
      return Err(ReplicaAhead);
    }
    var events := journal.After(ZERO);
    ValidIsSorted(journal.projectId, journal.events);
    events := S.Sort(events, M.EventCursor);
    for i := 0 to |events|
      invariant forall j :: 0 <= j < i ==> events[j].Cursor() != at
    {
      if events[i].Cursor() == at {
        FindSkips(events, at, i);
        return Ok(events[i].checksum);
      }
    }
    FindSkips(events, at, |events|);
    r := Err(CheckpointCursorNotFound);
  }

  method VerifyConvergence(source: M.MemoryJournal, target: M.MemoryJournal, at: Cursor) returns (r: Result<Comparison>)
    requires source.Consistent() && target.Consistent()
    ensures r == Compare(source.events, target.events, at)
    ensures r.Ok? ==> (r.value.equivalent <==> UpTo(source.events, r.value.at) == UpTo(target.events, r.value.at))
  {
    hide Valid, M.Indexed, HashAt, Head;
    ComparisonExact(source.projectId, source.events, target.projectId, target.events, at);
    var resolved := at;
    if resolved.IsZero() {
      resolved := source.head;
      if CompareCursor(target.head, resolved) < 0 {
        resolved := target.head;
      }
      if resolved.IsZero() {
        return Err(CheckpointEmpty);
      }
    }
    var x := HashAtCursor(source, resolved);
    if x.Err? {
      return Err(x.error);
    }
    var y := HashAtCursor(target, resolved);
    if y.Err? {
      return Err(y.error);
    }
    r := Ok(Comparison(resolved, x.value, y.value, x.value == y.value));
  }
}
