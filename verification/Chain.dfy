/** What a journal log is: every event in it was admitted by one rule, applied to the events before it. */
module Chain {
  import opened Events

  datatype Decision = Commit | Replay | Refuse(error: Error)

  function Last(log: seq<Event>): Event
    requires log != []
  {
    log[|log| - 1]
  }

  function Init(log: seq<Event>): seq<Event>
    requires log != []
  {
    log[..|log| - 1]
  }

  function Head(log: seq<Event>): Cursor {
    if log == [] then ZERO else Last(log).Cursor()
  }

  function HeadHash(log: seq<Event>): Digest {
    if log == [] then NoDigest else Last(log).checksum
  }

  predicate HasId(log: seq<Event>, id: Text) {
    exists i :: 0 <= i < |log| && log[i].Id() == id
  }

  predicate HasKey(log: seq<Event>, key: Text) {
    exists i :: 0 <= i < |log| && log[i].Key() == key
  }

  // The event stored under e's id carries e's checksum.
  predicate HasSame(log: seq<Event>, e: Event) {
    exists i :: 0 <= i < |log| && log[i].Id() == e.Id() && log[i].checksum == e.checksum
  }

  // validateNext: contiguity and the checksum chain, against a head and its hash.
  function ValidateNext(head: Cursor, headHash: Digest, e: Event): Option<Error> {
    if head.IsZero() then
      if e.Cursor().epoch != 1 || e.Cursor().sequence != 1 || e.previous != NoDigest then Some(SequenceGap) else None
    else if e.Cursor().epoch < head.epoch then Some(EpochFenced)
    else if e.Cursor().epoch == head.epoch && e.Cursor().sequence != head.sequence + 1 then Some(SequenceGap)
    else if e.Cursor().epoch > head.epoch && (e.Cursor().epoch != head.epoch + 1 || e.Cursor().sequence != 1) then Some(SequenceGap)
    else if e.previous != headHash then Some(ChecksumChain)
    else None
  }

  // MemoryJournal.appendData, as a verdict on one event against the log of one project.
  function Decide(project: Text, log: seq<Event>, e: Event): Decision {
    if Verify(e).Some? then Refuse(Verify(e).value)
    else if e.fields.projectId != project then Refuse(WrongProject)
    else if HasId(log, e.Id()) then
      if HasSame(log, e) then Replay else Refuse(IdReused)
    else if HasKey(log, e.Key()) then Refuse(KeyReused)
    else
      match ValidateNext(Head(log), HeadHash(log), e)
      case Some(error) => Refuse(error)
      case None => Commit
  }

  // Every event was admitted by Decide against the events before it.
  ghost predicate Valid(project: Text, log: seq<Event>) {
    log == [] || (Valid(project, Init(log)) && Decide(project, Init(log), Last(log)) == Commit)
  }

  // ------------------------------------------------------------ structure

  lemma ValidExtend(project: Text, log: seq<Event>, e: Event)
    requires Valid(project, log) && Decide(project, log, e) == Commit
    ensures Valid(project, log + [e])
  {
    assert Init(log + [e]) == log;
  }

  lemma {:induction false} ValidPrefix(project: Text, log: seq<Event>, n: nat)
    requires Valid(project, log) && n <= |log|
    ensures Valid(project, log[..n])
  {
    if n < |log| {
      ValidPrefix(project, Init(log), n);
      assert Init(log)[..n] == log[..n];
    } else {
      assert log[..n] == log;
    }
  }

  // The verdict that admitted position i.
  lemma {:induction false} Admitted(project: Text, log: seq<Event>, i: nat)
    requires Valid(project, log) && i < |log|
    ensures Valid(project, log[..i]) && Decide(project, log[..i], log[i]) == Commit
  {
    ValidPrefix(project, log, i + 1);
    assert Init(log[..i + 1]) == log[..i] && Last(log[..i + 1]) == log[i];
  }

  // Each event names its predecessor's checksum; only the first names none.
  lemma {:induction false} Linked(project: Text, log: seq<Event>, i: nat)
    requires Valid(project, log) && i < |log|
    ensures Verify(log[i]).None? && log[i].fields.projectId == project
    ensures log[i].checksum == EventHash(log[i])
    ensures i == 0 ==> log[i].previous == NoDigest && log[i].Cursor() == Cursor(1, 1)
    ensures i > 0 ==> log[i].previous == log[i - 1].checksum && log[i].previous != NoDigest
    ensures i > 0 ==>
      var p, c := log[i - 1].Cursor(), log[i].Cursor();
      c == Cursor(p.epoch, p.sequence + 1) || c == Cursor(p.epoch + 1, 1)
  {
    Admitted(project, log, i);
    if i > 0 {
      Admitted(project, log, i - 1);
      assert Last(log[..i]) == log[i - 1];
    }
  }

  lemma {:induction false} CursorsIncrease(project: Text, log: seq<Event>, i: nat, j: nat)
    requires Valid(project, log) && i < j < |log|
    ensures Before(log[i].Cursor(), log[j].Cursor())
  {
    Linked(project, log, j);
    if i < j - 1 {
      CursorsIncrease(project, log, i, j - 1);
    }
  }

  lemma MemberHasId(log: seq<Event>, e: Event)
    ensures e in log ==> HasId(log, e.Id())
  {
    if e in log {
      var i :| 0 <= i < |log| && log[i] == e;
      assert log[i].Id() == e.Id();
    }
  }

  lemma HasIdMore(log: seq<Event>, e: Event, id: Text)
    ensures HasId(log + [e], id) <==> HasId(log, id) || e.Id() == id
  {
    if HasId(log, id) {
      var i :| 0 <= i < |log| && log[i].Id() == id;
      assert (log + [e])[i].Id() == id;
    } else if e.Id() == id {
      assert (log + [e])[|log|].Id() == id;
    }
  }

  // No later event reuses an id or an idempotency key.
  lemma {:induction false} LaterIsFresh(project: Text, log: seq<Event>, i: nat, j: nat)
    requires Valid(project, log) && i < j < |log|
    ensures log[i].Id() != log[j].Id() && log[i].Key() != log[j].Key()
  {
    Admitted(project, log, j);
    assert log[..j][i] == log[i];
  }

  // --------------------------------------------------- checksums are history

  // A head hash identifies the whole log it belongs to, even across projects.
  lemma {:induction false} SameHeadHashSameLog(p: Text, a: seq<Event>, q: Text, b: seq<Event>)
    requires Valid(p, a) && Valid(q, b) && HeadHash(a) == HeadHash(b)
    ensures a == b
  {
    if a != [] { Linked(p, a, |a| - 1); }
    if b != [] { Linked(q, b, |b| - 1); }
    if a != [] {
      assert Last(a) == Last(b);
      CommitPins(p, Init(a), Last(a));
      CommitPins(q, Init(b), Last(b));
      SameHeadHashSameLog(p, Init(a), q, Init(b));
      assert a == Init(a) + [Last(a)] && b == Init(b) + [Last(b)];
    }
  }

  lemma {:induction false} PrefixEndsAt(project: Text, log: seq<Event>, i: nat)
    requires Valid(project, log) && i < |log|
    ensures Valid(project, log[..i + 1]) && HeadHash(log[..i + 1]) == log[i].checksum
  {
    ValidPrefix(project, log, i + 1);
    assert Last(log[..i + 1]) == log[i];
  }

  // Equal checksums anywhere in two valid logs mean equal positions and equal histories up to them.
  lemma {:induction false} SameChecksumSameHistory(p: Text, a: seq<Event>, i: nat, q: Text, b: seq<Event>, j: nat)
    requires Valid(p, a) && i < |a|
    requires Valid(q, b) && j < |b|
    requires a[i].checksum == b[j].checksum
    ensures i == j && a[..i + 1] == b[..j + 1]
  {
    var x, y := a[..i + 1], b[..j + 1];
    PrefixEndsAt(p, a, i);
    PrefixEndsAt(q, b, j);
    SameHeadHashSameLog(p, x, q, y);
    assert |x| == i + 1 && |y| == j + 1;
  }

  // The verdict in terms of the log alone: replay exactly for members, commit exactly for true successors.
  lemma {:induction false} DecideExact(project: Text, log: seq<Event>, e: Event)
    requires Valid(project, log)
    ensures Decide(project, log, e) == Replay <==> e in log
    ensures Decide(project, log, e) == Commit <==>
      (&& Verify(e).None? && e.fields.projectId == project
       && !HasId(log, e.Id()) && !HasKey(log, e.Key())
       && ValidateNext(Head(log), HeadHash(log), e).None?)
  {
    if e in log {
      var i :| 0 <= i < |log| && log[i] == e;
      Linked(project, log, i);
      assert HasSame(log, e) && HasId(log, e.Id());
    }
    if HasSame(log, e) && Verify(e).None? {
      var i :| 0 <= i < |log| && log[i].Id() == e.Id() && log[i].checksum == e.checksum;
      Linked(project, log, i);
      assert log[i] == e;
    }
  }

  // What committing e pins down: e names the hash of exactly this log and comes after it.
  lemma {:induction false} CommitPins(project: Text, log: seq<Event>, e: Event)
    requires Valid(project, log) && Decide(project, log, e) == Commit
    ensures e.previous == HeadHash(log)
    ensures log != [] ==> Before(Head(log), e.Cursor())
    ensures Verify(e).None? && e !in log
  {
    DecideExact(project, log, e);
    if log != [] {
      Linked(project, log, |log| - 1);
    }
  }

  // An event already part of a longer valid history commits on a prefix only as its very next event.
  lemma {:induction false} CommitFollowsHistory(project: Text, history: seq<Event>, n: nat, e: Event)
    requires Valid(project, history) && n <= |history| && e in history
    requires Decide(project, history[..n], e) == Commit
    ensures n < |history| && history[n] == e
  {
    ValidPrefix(project, history, n);
    CommitPins(project, history[..n], e);
    var k :| 0 <= k < |history| && history[k] == e;
    Admitted(project, history, k);
    CommitPins(project, history[..k], e);
    SameHeadHashSameLog(project, history[..n], project, history[..k]);
    assert |history[..n]| == |history[..k]|;
  }
}
