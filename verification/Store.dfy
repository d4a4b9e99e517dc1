/** The agent store's calls as they run: bounded retry loops over a journal that others keep writing to in between. */
module Stores {
  import opened Events
  import opened Chain
  import opened AgentStores
  import E = Endpoints
  import L = Leases
  import C = Lifecycles
  import M = MemoryJournals
  import W = WorktreeKeys

  predicate LeaseEvent(e: Event) {
    var p := e.fields.payload;
    p.LeaseAcquired? || p.LeaseRenewed? || p.LeaseReleased? || p.LeaseReclaimed? || p.LeaseTransferred?
  }

  predicate LifecycleEvent(e: Event) {
    e.fields.payload.Started? || e.fields.payload.Transitioned?
  }

  predicate ClaimEvent(e: Event) {
    var p := e.fields.payload;
    p.ClaimRecorded? || p.ClaimRenewed? || p.ClaimReleased? || p.ClaimHandedOff?
  }

  function Only(log: seq<Event>, keep: Event -> bool): seq<Event> {
    if log == [] then [] else Only(Init(log), keep) + if keep(Last(log)) then [Last(log)] else []
  }

  // Reading only its own kinds costs a fold nothing.
  lemma {:induction false} LeaseFoldOfOnly(log: seq<Event>)
    ensures L.Fold(Only(log, LeaseEvent)) == L.Fold(log)
  {
    if log != [] {
      LeaseFoldOfOnly(Init(log));
      var rest := Only(Init(log), LeaseEvent);
      if LeaseEvent(Last(log)) {
        assert Init(rest + [Last(log)]) == rest;
      } else {
        assert rest + [] == rest;
      }
    }
  }

  lemma {:induction false} RecordFoldOfOnly(log: seq<Event>, subject: Subject)
    ensures C.FoldRecords(Only(log, LifecycleEvent), subject) == C.FoldRecords(log, subject)
  {
    if log != [] {
      RecordFoldOfOnly(Init(log), subject);
      var rest := Only(Init(log), LifecycleEvent);
      if LifecycleEvent(Last(log)) {
        assert Init(rest + [Last(log)]) == rest;
      } else {
        assert rest + [] == rest;
      }
    }
  }

  lemma {:induction false} ClaimFoldOfOnly(log: seq<Event>)
    ensures FoldClaims(Only(log, ClaimEvent)) == FoldClaims(log)
  {
    if log != [] {
      ClaimFoldOfOnly(Init(log));
      var rest := Only(Init(log), ClaimEvent);
      if ClaimEvent(Last(log)) {
        assert Init(rest + [Last(log)]) == rest;
      } else {
        assert rest + [] == rest;
      }
    }
  }

  // ----------------------------------------------------------------- claims

  datatype Claim = Claim(run: Text, released: bool)

  type Claims = map<Text, Claim>

  function ClaimOne(claims: Claims, p: Payload): Claims {
    match p
    case ClaimRecorded(id, run, superseded) =>
      var before := if superseded.Some? && superseded.value in claims
                    then claims[superseded.value := claims[superseded.value].(released := true)] else claims;
      before[id := Claim(run, false)]
    case ClaimReleased(id, _) => if id in claims then claims[id := claims[id].(released := true)] else claims
    case ClaimHandedOff(id, _, to, _, _) => if id in claims then claims[id := claims[id].(run := to)] else claims
    case _ => claims
  }

  function FoldClaims(log: seq<Event>): Claims {
    if log == [] then map[] else ClaimOne(FoldClaims(Init(log)), Last(log).fields.payload)
  }

  predicate Records(p: Payload, id: Text) {
    p.ClaimRecorded? && p.claimId == id
  }

  // A release, or the takeover of its lease by another claim.
  predicate Closes(p: Payload, id: Text) {
    (p.ClaimReleased? && p.claimId == id) || (p.ClaimRecorded? && p.claimId != id && p.supersededClaim == Some(id))
  }

  predicate RecordedIn(log: seq<Event>, id: Text) {
    exists j :: 0 <= j < |log| && Records(log[j].fields.payload, id)
  }

  // Since its record, the claim was released or taken over.
  predicate ClosedIn(log: seq<Event>, id: Text) {
    exists i :: 0 <= i < |log| && Closes(log[i].fields.payload, id) && RecordedIn(log[..i], id)
                && forall k :: i < k < |log| ==> !Records(log[k].fields.payload, id)
  }

  lemma RecordedMore(log: seq<Event>, e: Event, id: Text)
    ensures RecordedIn(log + [e], id) <==> RecordedIn(log, id) || Records(e.fields.payload, id)
  {
    if RecordedIn(log, id) {
      var j :| 0 <= j < |log| && Records(log[j].fields.payload, id);
      assert (log + [e])[j] == log[j];
    }
    assert (log + [e])[|log|] == e;
  }

  lemma ClosedMore(log: seq<Event>, e: Event, id: Text)
    ensures ClosedIn(log + [e], id) <==>
      !Records(e.fields.payload, id) && (ClosedIn(log, id) || (Closes(e.fields.payload, id) && RecordedIn(log, id)))
  {
    var more := log + [e];
    assert more[..|log|] == log && more[|log|] == e;
    if ClosedIn(log, id) && !Records(e.fields.payload, id) {
      var i :| 0 <= i < |log| && Closes(log[i].fields.payload, id) && RecordedIn(log[..i], id)
               && forall k :: i < k < |log| ==> !Records(log[k].fields.payload, id);
      assert more[..i] == log[..i] && more[i] == log[i];
    }
    if ClosedIn(more, id) {
      var i :| 0 <= i < |more| && Closes(more[i].fields.payload, id) && RecordedIn(more[..i], id)
               && forall k :: i < k < |more| ==> !Records(more[k].fields.payload, id);
      if i < |log| {
        assert more[..i] == log[..i] && more[i] == log[i];
        assert forall k :: i < k < |log| ==> more[k] == log[k];
      }
    }
  }

  // The claims folded from a log are the recorded ones, closed exactly if released or taken over since they were recorded.
  lemma {:induction false} ClaimsExact(log: seq<Event>, id: Text)
    ensures id in FoldClaims(log) <==> RecordedIn(log, id)
    ensures id in FoldClaims(log) ==> (FoldClaims(log)[id].released <==> ClosedIn(log, id))
  {
    hide RecordedIn, ClosedIn;
    if log == [] {
      assert !RecordedIn(log, id) by { EmptyRecords(id); }
    } else {
      ClaimsExact(Init(log), id);
      RecordedMore(Init(log), Last(log), id);
      ClosedMore(Init(log), Last(log), id);
      assert log == Init(log) + [Last(log)];
    }
  }

  lemma EmptyRecords(id: Text)
    ensures !RecordedIn([], id)
  {
  }

  // ------------------------------------------------------------------ store

  // An answer to a lease call: the lease and the payload that recorded it; nothing when there was nothing to do.
  datatype Granted = Granted(lease: Lease, payload: Payload)

  lemma {:induction false} LongerIsFresh(log: seq<Event>, id: Text)
    requires forall i :: 0 <= i < |log| ==> |log[i].Id()| < |id| && |log[i].Key()| < |id|
    ensures !HasId(log, id) && !HasKey(log, id)
  {
  }

  // The positions of the events named by the store that mints names starting with `tag`.
  function Named(log: seq<Event>, tag: Text): (positions: seq<nat>)
    ensures forall k :: 0 <= k < |positions| ==> positions[k] < |log|
  {
    if log == [] then [] else Named(Init(log), tag) + if tag <= Last(log).Id() then [|log| - 1] else []
  }

  lemma NamedMore(log: seq<Event>, tag: Text, e: Event)
    ensures Named(log + [e], tag) == Named(log, tag) + if tag <= e.Id() then [|log|] else []
  {
    assert Init(log + [e]) == log;
  }

  predicate Kinded(payload: Payload) {
    payload.Other? ==> !Blank(payload.kind)
  }

  // A lost race and a fence of the journal are never told as such.
  predicate Translated(error: Error) {
    error != SequenceGap && error != ChecksumChain && error != RoleFenced && error != EpochFenced
  }

  lemma TranslateExact(error: Error)
    ensures Translate(error).None? <==> error == SequenceGap || error == ChecksumChain
    ensures Translate(error).Some? ==> Translated(Translate(error).value)
    ensures Translate(error) == Some(RetriesExhausted) ==> error == RetriesExhausted
  {
  }

  // What a lease call decides is about the lease, or about its own arguments.
  lemma LeaseVerdicts(p: L.Projection, operation: L.Command, m: L.Minted)
    ensures var v := L.DecideLease(p, operation, m);
      && (v.Deny? ==> Translated(v.error) && v.error != RetriesExhausted)
      && (v.Emit? ==> Kinded(v.payload))
  {
  }

  lemma MoveVerdicts(records: C.Records, subject: Subject, id: Text, target: Status, disposition: Text)
    ensures var v := C.DecideTransition(records, subject, id, target, disposition);
      && (v.Deny? ==> Translated(v.error) && v.error != RetriesExhausted)
      && (v.Emit? ==> Kinded(v.payload))
  {
  }

  // A claim that is there and not closed.
  predicate OpenClaim(log: seq<Event>, id: Text) {
    id in FoldClaims(log) && !FoldClaims(log)[id].released
  }

  class Store {
    const journal: M.MemoryJournal
    const actor: Text
    const epoch: int
    const tag: Text // what every name this store mints starts with, and nobody else's does

    ghost predicate Consistent()
      reads journal
    {
      journal.Consistent()
    }

    // The journal is active, in the term its log is in, and the store is configured for that term.
    ghost predicate Ready()
      reads journal
    {
      InTerm(journal.State()) && journal.epoch == epoch && !Blank(actor)
    }

    // The positions of this store's own events in the journal.
    ghost function Mine(): (positions: seq<nat>)
      reads journal
      ensures forall k :: 0 <= k < |positions| ==> positions[k] < |journal.events|
    {
      Named(journal.events, tag)
    }

    constructor (journal: M.MemoryJournal, actor: Text, epoch: int, tag: Text)
      requires journal.Consistent() && actor != [] && epoch >= 1
      ensures Consistent() && this.journal == journal && this.actor == actor && this.epoch == epoch && this.tag == tag
    {
      this.journal, this.actor, this.epoch, this.tag := journal, actor, epoch, tag;
    }

    // Whatever others do to the journal meanwhile: any events it accepts, under names of their own, and any change of role.
    // Nobody does anything when it is calm.
    method Meanwhile(calm: bool)
      requires Consistent()
      modifies journal
      ensures Consistent() && old(journal.events) <= journal.events && Mine() == old(Mine())
      ensures calm ==> unchanged(journal)
    {
      hide Valid, M.Indexed, Decide, Named;
      if calm {
        return;
      }
      var events: seq<Event> := *;
      for i := 0 to |events|
        invariant Consistent() && old(journal.events) <= journal.events && Mine() == old(Mine())
      {
        if !(tag <= events[i].Id()) {
          E.AppendDataSound(journal.State(), events[i]);
          AppendedIs(journal.State(), events[i]);
          NamedMore(journal.events, tag, events[i]);
          var _ := journal.AppendData(events[i]);
        }
      }
      var role: Role, epoch: int := *, *;
      journal.role, journal.epoch := role, epoch;
    }

    lemma AppendedIs(ep: E.Endpoint, e: Event)
      ensures var after := E.AppendData(ep, e).0; after.log == ep.log || after.log == ep.log + [e]
    {
    }

    // A name of this store's that no event has yet.
    method NewId() returns (id: Text)
      ensures tag <= id && !HasId(journal.events, id) && !HasKey(journal.events, id) && !Blank(id)
    {
      id := *;
      if !(tag <= id) || Blank(id) || HasId(journal.events, id) || HasKey(journal.events, id) {
        id := tag + [0];
        for i := 0 to |journal.events|
          invariant tag <= id && id != [] && id[|id| - 1] == 0
          invariant forall j :: 0 <= j < i ==> |journal.events[j].Id()| < |id| && |journal.events[j].Key()| < |id|
        {
          if |id| <= |journal.events[i].Id()| + |journal.events[i].Key()| {
            id := id + journal.events[i].Id() + journal.events[i].Key() + [0];
          }
        }
        LongerIsFresh(journal.events, id);
        assert !IsSpace(id[|id| - 1]);
      }
    }

    // Clocks read later than Go's zero time.
    method Now() returns (now: Instant)
      ensures now > 0
    {
      now := *;
      now := if now > 0 then now else 1;
    }

    // The events of this project's log that a fold asks for.
    method LoadEvents(keep: Event -> bool) returns (events: seq<Event>)
      requires journal.Consistent()
      ensures events == Only(journal.events, keep)
    {
      hide Valid, M.Indexed;
      var all := journal.After(ZERO);
      AllAfterZero(journal.projectId, journal.events);
      events := [];
      for i := 0 to |all|
        invariant events == Only(all[..i], keep)
      {
        assert Init(all[..i + 1]) == all[..i] && Last(all[..i + 1]) == all[i];
        if keep(all[i]) {
          events := events + [all[i]];
        } else {
          assert events + [] == events;
        }
      }
      assert all[..|all|] == all;
    }

    // Head first, then the log: others may append in between, so the events are at least as complete as the head says.
    method Snapshot(keep: Event -> bool, calm: bool) returns (head: Cursor, hash: Digest, events: seq<Event>, ghost at: nat, ghost seen: seq<Event>)
      requires Consistent()
      modifies journal
      ensures Consistent() && old(journal.events) <= journal.events && Mine() == old(Mine())
      ensures seen == journal.events && events == Only(seen, keep)
      ensures PinnedAt(seen, at, hash) && at <= |seen| && head == Head(seen[..at])
      ensures calm ==> unchanged(journal) && at == |seen|
    {
      hide Valid, M.Indexed, Only;
      Meanwhile(calm);
      head, hash, at := journal.head, journal.headHash, |journal.events|;
      ghost var known := journal.events;
      assert known[..at] == known;
      Meanwhile(calm);
      assert journal.events[..at] == known;
      seen := journal.events;
      events := LoadEvents(keep);
    }

    lemma AllAfterZero(project: Text, log: seq<Event>)
      requires Valid(project, log)
      ensures E.After(log, ZERO) == log
    {
      E.AfterHeadOfPrefix(project, log, 0);
    }

    // One pinned append. It succeeds only if nobody appended anything since `at`; then the log is what was seen, plus this.
    // On a journal that is ready and that nobody touches it does succeed, and leaves it ready; failing, it leaves it as it was.
    method TryAppendAt(head: Cursor, hash: Digest, correlation: Text, payload: Payload, calm: bool, ghost at: nat, ghost seen: seq<Event>)
      returns (r: Result<Event>)
      requires Consistent() && PinnedAt(journal.events, at, hash) && at <= |seen| && seen <= journal.events
      modifies journal
      ensures Consistent() && old(journal.events) <= journal.events
      ensures r.Ok? ==> journal.events == seen + [r.value] && r.value.fields.payload == payload && Mine() == old(Mine()) + [|seen|]
      ensures r.Err? ==> Mine() == old(Mine()) && r.error != RetriesExhausted
      ensures calm && r.Err? ==> journal.State() == old(journal.State())
      ensures calm && old(Ready()) && Kinded(payload) && seen == old(journal.events) && at == |seen| && head == Head(seen) ==> r.Ok? && Ready()
    {
      hide Valid, M.Indexed, Decide, HasId, HasKey, Named, EventAt, Blank, E.Append, PinnedAt, Kinded, InTerm;
      ghost var was := journal.events;
      Meanwhile(calm);
      PinStays(was, journal.events, at, hash);
      var id := NewId();
      var occurredAt := Now();
      var stamp := Stamp(actor, id, correlation, occurredAt);
      PinnedAppend(journal.State(), head, hash, epoch, stamp, payload, at, seen, tag);
      r := EventAt(journal.projectId, head, hash, epoch, stamp, payload);
      if r.Err? {
        return;
      }
      var failure := journal.Append(r.value);
      if failure.Some? {
        return Err(failure.value);
      }
    }

    // What one pinned append over an endpoint comes to.
    predicate PinnedOutcome(ep: E.Endpoint, head: Cursor, hash: Digest, epoch: int, stamp: Stamp, payload: Payload, at: nat, seen: seq<Event>, tag: Text) {
      var r := EventAt(ep.project, head, hash, epoch, stamp, payload);
      var settled := InTerm(ep) && ep.epoch == epoch && !Blank(stamp.actor) && Kinded(payload) && seen == ep.log && at == |seen| && head == Head(seen);
      if r.Err? then r.error == Incomplete && !settled
      else
        var (after, failure) := E.Append(ep, r.value);
        && r.value.fields.payload == payload && (InTerm(ep) ==> InTerm(after))
        && (failure.Some? ==> after == ep && failure.value != RetriesExhausted && !settled)
        && (failure.None? ==>
              && ep.log == seen && after == ep.(log := seen + [r.value], outbox := after.outbox)
              && Named(after.log, tag) == Named(ep.log, tag) + [|seen|])
    }

    // The journal knows nothing of retries, and an event of the term it takes leaves it in that term.
    lemma StaysInTerm(ep: E.Endpoint, e: Event)
      ensures E.Append(ep, e).1 != Some(RetriesExhausted)
      ensures InTerm(ep) ==> InTerm(E.Append(ep, e).0)
    {
    }

    lemma PinStays(log: seq<Event>, more: seq<Event>, at: nat, hash: Digest)
      requires PinnedAt(log, at, hash) && log <= more
      ensures PinnedAt(more, at, hash)
    {
      assert more[..at] == log[..at];
    }

    lemma PinnedAppend(ep: E.Endpoint, head: Cursor, hash: Digest, epoch: int, stamp: Stamp, payload: Payload, at: nat, seen: seq<Event>, tag: Text)
      requires E.Sound(ep) && PinnedAt(ep.log, at, hash) && at <= |seen| && seen <= ep.log
      requires !HasId(ep.log, stamp.eventId) && !HasKey(ep.log, stamp.eventId) && !Blank(stamp.eventId) && stamp.occurredAt > 0 && tag <= stamp.eventId
      ensures PinnedOutcome(ep, head, hash, epoch, stamp, payload, at, seen, tag)
    {
      hide Valid, InTerm, Named, HasKey, Blank, E.Append, EventAt;
      EventPinned(ep.project, head, hash, epoch, stamp, payload);
      EventRefused(ep.project, head, hash, epoch, stamp, payload);
      if InTerm(ep) && ep.epoch == epoch && !Blank(stamp.actor) && Kinded(payload) && seen == ep.log && at == |seen| && head == Head(seen) {
        assert ep.log[..at] == ep.log;
        NextIsAccepted(ep, stamp, payload);
      }
      var r := EventAt(ep.project, head, hash, epoch, stamp, payload);
      if r.Ok? {
        StaysInTerm(ep, r.value);
        NamedMore(seen, tag, r.value);
        SawEverything(ep, at, seen, r.value);
      }
    }

    lemma EventRefused(project: Text, head: Cursor, hash: Digest, epoch: int, stamp: Stamp, payload: Payload)
      ensures EventAt(project, head, hash, epoch, stamp, payload).Err? ==> EventAt(project, head, hash, epoch, stamp, payload) == Err(Incomplete)
    {
    }

    lemma SawEverything(ep: E.Endpoint, at: nat, seen: seq<Event>, e: Event)
      requires E.Sound(ep) && PinnedAt(ep.log, at, e.previous) && at <= |seen| && seen <= ep.log && !HasId(ep.log, e.Id())
      ensures var (after, failure) := E.Append(ep, e);
        && (failure.None? ==> ep.log == seen && after == ep.(log := seen + [e], outbox := after.outbox))
        && (failure.Some? ==> after == ep)
    {
      hide Valid;
      if E.Append(ep, e).1.None? {
        DecideExact(ep.project, ep.log, e);
        PinnedCommitSawEverything(ep.project, ep.log, at, seen, e);
      }
    }

    // Acquire, Renew, Release and Transfer: every attempt decides afresh from its own snapshot and appends pinned to it.
    // `races` is how many attempts others may get into. With none, on a journal that is ready, the answer is the decision from
    // the log as it was; with fewer than there are attempts, retries run out only on a journal that is not ready.
    method Perform(operation: L.Command, races: nat) returns (r: Result<Option<Granted>>, ghost minted: L.Minted)
      requires Consistent()
      modifies journal
      ensures Consistent() && old(journal.events) <= journal.events
      ensures r.Ok? && r.value.Some? ==> AppendedLast(old(Mine()), operation, minted, r.value.value) && |old(journal.events)| < |journal.events|
      ensures r.Ok? && r.value.None? ==> Mine() == old(Mine()) && L.DecideLease(L.Fold(journal.events), operation, minted).Settled?
      ensures r.Err? ==> Mine() == old(Mine()) && Translated(r.error)
      ensures races == 0 && old(Ready()) ==> Ready() && Decides(r, L.DecideLease(L.Fold(old(journal.events)), operation, minted))
      ensures races == 0 && old(Ready()) ==> journal.events == old(journal.events) || Init(journal.events) == old(journal.events)
      ensures r == Err(RetriesExhausted) && races < MAX_APPEND_RETRIES ==> !Ready()
      ensures minted.now > 0 && minted.epoch == epoch
    {
      hide L.Fold, L.DecideLease, Valid, M.Indexed, Named, InTerm, Translated, L.Superseded, L.Legal, Decides;
      minted := L.Minted(1, [], [], epoch);
      var attempt := 0;
      ExhaustedIsTranslated();
      while attempt < MAX_APPEND_RETRIES
        invariant attempt <= MAX_APPEND_RETRIES
        invariant Consistent() && old(journal.events) <= journal.events && Mine() == old(Mine())
        invariant races == 0 && old(Ready()) ==> attempt == 0 && journal.State() == old(journal.State())
        invariant attempt > races ==> !Ready()
        invariant minted.now > 0 && minted.epoch == epoch
      {
        var answer;
        answer, minted := Attempt(operation, attempt >= races);
        if answer.Some? {
          return answer.value, minted;
        }
        attempt := attempt + 1;
      }
      r := Err(RetriesExhausted);
    }

    // One attempt; None is a lost race.
    method Attempt(operation: L.Command, calm: bool) returns (answer: Option<Result<Option<Granted>>>, ghost minted: L.Minted)
      requires Consistent()
      modifies journal
      ensures Consistent() && old(journal.events) <= journal.events && minted.now > 0 && minted.epoch == epoch
      ensures answer.None? ==> Mine() == old(Mine()) && (calm ==> journal.State() == old(journal.State()))
      ensures answer.Some? && answer.value.Ok? && answer.value.value.Some? ==>
        AppendedLast(old(Mine()), operation, minted, answer.value.value.value) && |old(journal.events)| < |journal.events|
      ensures answer.Some? && answer.value.Ok? && answer.value.value.None? ==>
        Mine() == old(Mine()) && L.DecideLease(L.Fold(journal.events), operation, minted).Settled?
      ensures answer.Some? && answer.value.Err? ==> Mine() == old(Mine()) && Translated(answer.value.error) && answer.value.error != RetriesExhausted
      ensures calm && old(Ready()) ==> answer.Some? && Ready() && Decides(answer.value, L.DecideLease(L.Fold(old(journal.events)), operation, minted))
      ensures calm && old(Ready()) ==> journal.events == old(journal.events) || Init(journal.events) == old(journal.events)
    {
      hide L.Fold, L.DecideLease, Only, Valid, M.Indexed, Named, Translate, Decide, HasId, L.Superseded, L.Legal, InTerm, PinnedAt, Translated, Kinded, Decides, HeadHash, M.MemoryJournal.State, LeaseEvent;
      var head, hash, events;
      ghost var at, seen;
      head, hash, events, at, seen := Snapshot(LeaseEvent, calm);
      WholeLog(seen, at);
      LeaseFoldOfOnly(seen);
      var byId, released, byResource := L.FoldLeaseProjection(events);
      var now := Now();
      var leaseId: Text, token: Text := *, *;
      var names := L.Minted(now, leaseId, token, epoch);
      minted := names;
      var verdict := L.DecideLease(L.Projection(byId, released, byResource), operation, names);
      LeaseVerdicts(L.Projection(byId, released, byResource), operation, names);
      if verdict.Deny? {
        VerdictAnswers(verdict);
        return Some(Err(verdict.error)), minted;
      }
      if verdict.Settled? {
        VerdictAnswers(verdict);
        return Some(Ok(None)), minted;
      }
      var appended := TryAppendAt(head, hash, [], verdict.payload, calm, at, seen);
      if appended.Ok? {
        assert Init(journal.events) == seen;
        VerdictAnswers(verdict);
        return Some(Ok(Some(Granted(verdict.lease, verdict.payload)))), minted;
      }
      TranslateExact(appended.error);
      var translated := Translate(appended.error);
      answer := if translated.Some? then Some(Err(translated.value)) else None;
    }

    lemma WholeLog(log: seq<Event>, at: nat)
      ensures at == |log| ==> log[..at] == log
    {
    }

    lemma ExhaustedIsTranslated()
      ensures Translated(RetriesExhausted)
    {
    }

    lemma VerdictAnswers(v: L.Verdict)
      ensures Decides(match v case Emit(payload, lease) => Ok(Some(Granted(lease, payload))) case Settled => Ok(None) case Deny(error) => Err(error), v)
    {
    }

    // The answer is the verdict.
    predicate Decides(r: Result<Option<Granted>>, v: L.Verdict) {
      match v
      case Emit(payload, lease) => r == Ok(Some(Granted(lease, payload)))
      case Settled => r == Ok(None)
      case Deny(error) => r == Err(error)
    }

    // The call's own event is the last one, and it is what the call decides from everything before it.
    ghost predicate AppendedLast(before: seq<nat>, operation: L.Command, minted: L.Minted, granted: Granted)
      reads this, journal
    {
      && journal.events != [] && Mine() == before + [|journal.events| - 1]
      && Last(journal.events).fields.payload == granted.payload
      && L.DecideLease(L.Fold(Init(journal.events)), operation, minted) == L.Emit(granted.payload, granted.lease)
    }

    // A fact with no precondition: only a lost race is retried. `races` is as in Perform.
    method AppendWithRetry(correlation: Text, payload: Payload, races: nat) returns (r: Result<Event>)
      requires Consistent()
      modifies journal
      ensures Consistent() && old(journal.events) <= journal.events
      ensures r.Ok? ==> journal.events != [] && Last(journal.events) == r.value && Mine() == old(Mine()) + [|journal.events| - 1]
      ensures r.Ok? ==> r.value.fields.payload == payload
      ensures r.Err? ==> Mine() == old(Mine()) && Translated(r.error)
      ensures races == 0 && old(Ready()) && Kinded(payload) ==> r.Ok? && journal.events == old(journal.events) + [r.value] && Ready()
      ensures r == Err(RetriesExhausted) && races < MAX_APPEND_RETRIES && Kinded(payload) ==> !Ready()
    {
      hide Valid, M.Indexed, Named, Translate, InTerm, PinnedAt, Kinded, Translated;
      var attempt := 0;
      ExhaustedIsTranslated();
      while attempt < MAX_APPEND_RETRIES
        invariant attempt <= MAX_APPEND_RETRIES
        invariant Consistent() && old(journal.events) <= journal.events && Mine() == old(Mine())
        invariant races == 0 && old(Ready()) && Kinded(payload) ==> attempt == 0 && journal.State() == old(journal.State())
        invariant attempt > races && Kinded(payload) ==> !Ready()
      {
        var calm := attempt >= races;
        Meanwhile(calm);
        ghost var seen := journal.events;
        WholeLog(seen, |seen|);
        PinnedHere(journal.events, journal.headHash);
        r := TryAppendAt(journal.head, journal.headHash, correlation, payload, calm, |seen|, seen);
        if r.Ok? {
          return;
        }
        TranslateExact(r.error);
        var translated := Translate(r.error);
        if translated.Some? {
          return Err(translated.value);
        }
        attempt := attempt + 1;
      }
      r := Err(RetriesExhausted);
    }

    lemma PinnedHere(log: seq<Event>, hash: Digest)
      requires hash == HeadHash(log)
      ensures PinnedAt(log, |log|, hash)
    {
      assert log[..|log|] == log;
    }

    // Effort and run transitions: the status a transition leaves is read from the snapshot it is pinned to. `races` is as in
    // Perform.
    method Transition(subject: Subject, id: Text, target: Status, disposition: Text, races: nat) returns (r: Result<C.Record>)
      requires Consistent()
      modifies journal
      ensures Consistent() && old(journal.events) <= journal.events
      ensures r.Ok? ==> journal.events != [] && Mine() == old(Mine()) + [|journal.events| - 1]
      ensures r.Ok? ==>
        && C.DecideTransition(C.FoldRecords(Init(journal.events), subject), subject, id, target, disposition) == C.Emit(Last(journal.events).fields.payload)
        && id in C.FoldRecords(journal.events, subject) && C.FoldRecords(journal.events, subject)[id] == r.value
      ensures r.Err? ==> Mine() == old(Mine()) && Translated(r.error)
      ensures races == 0 && old(Ready()) ==>
        match C.DecideTransition(C.FoldRecords(old(journal.events), subject), subject, id, target, disposition)
        case Emit(_) => r.Ok? && Init(journal.events) == old(journal.events)
        case Deny(error) => r == Err(error)
      ensures r == Err(RetriesExhausted) && races < MAX_APPEND_RETRIES ==> !Ready()
    {
      hide C.FoldRecords, C.DecideTransition, Valid, M.Indexed, Named, InTerm, Translated;
      var attempt := 0;
      ExhaustedIsTranslated();
      while attempt < MAX_APPEND_RETRIES
        invariant attempt <= MAX_APPEND_RETRIES
        invariant Consistent() && old(journal.events) <= journal.events && Mine() == old(Mine())
        invariant races == 0 && old(Ready()) ==> attempt == 0 && journal.State() == old(journal.State())
        invariant attempt > races ==> !Ready()
      {
        var answer := AttemptTransition(subject, id, target, disposition, attempt >= races);
        if answer.Some? {
          return answer.value;
        }
        attempt := attempt + 1;
      }
      r := Err(RetriesExhausted);
    }

    method AttemptTransition(subject: Subject, id: Text, target: Status, disposition: Text, calm: bool) returns (answer: Option<Result<C.Record>>)
      requires Consistent()
      modifies journal
      ensures Consistent() && old(journal.events) <= journal.events
      ensures answer.None? ==> Mine() == old(Mine()) && (calm ==> journal.State() == old(journal.State()))
      ensures answer.Some? && answer.value.Ok? ==>
        && journal.events != [] && Mine() == old(Mine()) + [|journal.events| - 1]
        && C.DecideTransition(C.FoldRecords(Init(journal.events), subject), subject, id, target, disposition) == C.Emit(Last(journal.events).fields.payload)
        && id in C.FoldRecords(journal.events, subject) && C.FoldRecords(journal.events, subject)[id] == answer.value.value
      ensures answer.Some? && answer.value.Err? ==> Mine() == old(Mine()) && Translated(answer.value.error) && answer.value.error != RetriesExhausted
      ensures calm && old(Ready()) ==>
        && answer.Some?
        && match C.DecideTransition(C.FoldRecords(old(journal.events), subject), subject, id, target, disposition)
           case Emit(_) => answer.value.Ok? && Init(journal.events) == old(journal.events)
           case Deny(error) => answer.value == Err(error)
    {
      hide C.FoldRecords, Only, C.ValidateTransition, C.DecideTransition, C.Moved, Translate, Valid, Decide, M.Indexed, Named, InTerm, PinnedAt, Translated, Kinded;
      var head, hash, events;
      ghost var at, seen;
      head, hash, events, at, seen := Snapshot(LifecycleEvent, calm);
      WholeLog(seen, at);
      RecordFoldOfOnly(seen, subject);
      var records := C.FoldSubjects(events, subject);
      var verdict := C.DecideTransition(records, subject, id, target, disposition);
      MoveVerdicts(records, subject, id, target, disposition);
      if verdict.Deny? {
        return Some(Err(verdict.error));
      }
      var appended := TryAppendAt(head, hash, id, verdict.payload, calm, at, seen);
      if appended.Ok? {
        assert Init(journal.events) == seen;
        MovedInFold(seen, appended.value, subject, id, target, disposition);
        return Some(Ok(C.Moved(records[id], target, disposition)));
      }
      TranslateExact(appended.error);
      var translated := Translate(appended.error);
      answer := if translated.Some? then Some(Err(translated.value)) else None;
    }

    lemma MovedInFold(log: seq<Event>, e: Event, subject: Subject, id: Text, target: Status, disposition: Text)
      requires C.DecideTransition(C.FoldRecords(log, subject), subject, id, target, disposition) == C.Emit(e.fields.payload)
      ensures id in C.FoldRecords(log, subject) && id in C.FoldRecords(log + [e], subject)
      ensures C.FoldRecords(log + [e], subject)[id] == C.Moved(C.FoldRecords(log, subject)[id], target, disposition)
    {
      assert Init(log + [e]) == log;
    }

    // --------------------------------------------------------------- worktrees

    // None of the events appended since `before` is a lease event.
    ghost predicate NoLeaseEventSince(before: nat)
      requires Consistent()
      reads this, journal
    {
      forall k :: before <= k < |Mine()| ==> !LeaseEvent(journal.events[Mine()[k]])
    }

    // If a lease call made under this fence succeeded, the fence had not been superseded when the call began.
    lemma FencedCallsFail(past: seq<Event>, log: seq<Event>, n: nat, operation: L.Command, m: L.Minted)
      requires L.Legal(log) && |past| <= n <= |log| && past <= log && !operation.Acquire?
      requires L.DecideLease(L.Fold(log[..n]), operation, m).Emit?
      ensures L.Legal(past) && !L.Superseded(past, operation.fence.token)
    {
      L.LegalPrefix(log, |past|);
      assert log[..|past|] == past;
      L.LegalPrefix(log, n);
      if L.Superseded(past, operation.fence.token) {
        assert log[..n][..|past|] == past;
        L.SupersededForever(log[..n], |past|, operation.fence.token);
        L.SupersededIsRefused(log[..n], operation, m);
      }
    }

    method GetClaim(claimId: Text, calm: bool) returns (claim: Option<Claim>)
      requires Consistent()
      modifies journal
      ensures Consistent() && old(journal.events) <= journal.events && Mine() == old(Mine())
      ensures calm ==> unchanged(journal)
      ensures claim == if claimId in FoldClaims(journal.events) then Some(FoldClaims(journal.events)[claimId]) else None
    {
      hide FoldClaims, Only;
      Meanwhile(calm);
      var events := LoadEvents(ClaimEvent);
      ClaimFoldOfOnly(journal.events);
      var claims := FoldClaims(events);
      claim := if claimId in claims then Some(claims[claimId]) else None;
    }

    // The claim's own record is only a quick refusal; the lease call decides.
    method RenewClaim(claimId: Text, fence: LeaseFence, races: nat) returns (r: Result<Lease>)
      requires Consistent()
      modifies journal
      ensures Consistent() && old(journal.events) <= journal.events && old(Mine()) <= Mine()
      ensures L.Legal(journal.events) && L.Superseded(old(journal.events), fence.token) ==> r.Err? && Mine() == old(Mine())
      ensures races == 0 && old(Ready()) && OpenClaim(old(journal.events), claimId) && L.FenceCheck(L.Fold(old(journal.events)), claimId, fence).None? ==>
        r.Ok? && |journal.events| == |old(journal.events)| + 2
    {
      hide L.Fold, L.DecideLease, L.Legal, L.Superseded, FoldClaims, Valid, M.Indexed, Named, Decides, InTerm, L.FenceCheck, Translated, LeaseEvent, M.MemoryJournal.State;
      var claim := GetClaim(claimId, races == 0);
      if claim.None? {
        return Err(NotFound);
      }
      if claim.value.released {
        return Err(LeaseFenced);
      }
      ghost var past := old(journal.events);
      var renewed;
      ghost var minted;
      renewed, minted := Perform(L.Renew(claimId, fence), races);
      HeldFenceEmits(L.Fold(past), L.Renew(claimId, fence), minted, renewed);
      if renewed.Err? {
        return Err(renewed.error);
      }
      if renewed.value.None? {
        RenewalsEmit(L.Fold(journal.events), claimId, fence, minted);
        assert false;
      }
      ghost var log := journal.events;
      var lease := renewed.value.value.lease;
      var followed := AppendWithRetry([], ClaimRenewed(claimId, lease.fence, lease.renewedAt), races);
      if L.Legal(journal.events) {
        assert journal.events[..|log| - 1] == Init(log);
        FencedCallsFail(past, journal.events, |log| - 1, L.Renew(claimId, fence), minted);
      }
      r := if followed.Err? then Err(followed.error) else Ok(lease);
    }

    // Under the fence in force, with something to ask for, the verdict is to append, so that is what an undisturbed call did.
    lemma HeldFenceEmits(p: L.Projection, operation: L.Command, m: L.Minted, r: Result<Option<Granted>>)
      requires !operation.Acquire?
      ensures (&& L.FenceCheck(p, operation.id, operation.fence).None? && (operation.Transfer? ==> !Blank(operation.to))
               && Decides(r, L.DecideLease(p, operation, m))) ==>
        r.Ok? && r.value.Some? && (operation.Transfer? ==> r.value.value.lease.holder == operation.to)
    {
    }

    lemma RenewalsEmit(p: L.Projection, id: Text, fence: LeaseFence, m: L.Minted)
      ensures !L.DecideLease(p, L.Renew(id, fence), m).Settled?
    {
    }

    method ReleaseClaim(claimId: Text, fence: LeaseFence, races: nat) returns (failure: Option<Error>)
      requires Consistent()
      modifies journal
      ensures Consistent() && old(journal.events) <= journal.events && old(Mine()) <= Mine()
      ensures L.Legal(journal.events) && L.Superseded(old(journal.events), fence.token) ==> NoLeaseEventSince(|old(Mine())|)
      ensures races == 0 && old(Ready()) && OpenClaim(old(journal.events), claimId) && L.FenceCheck(L.Fold(old(journal.events)), claimId, fence).None? ==>
        failure.None? && |journal.events| == |old(journal.events)| + 2
    {
      hide L.Fold, L.DecideLease, L.Legal, L.Superseded, FoldClaims, Valid, M.Indexed, Named, Decides, InTerm, L.FenceCheck, Translated, M.MemoryJournal.State;
      var claim := GetClaim(claimId, races == 0);
      if claim.None? {
        return Some(NotFound);
      }
      if claim.value.released {
        return None;
      }
      ghost var past := old(journal.events);
      var released;
      ghost var minted;
      released, minted := Perform(L.Release(claimId, fence), races);
      HeldFenceEmits(L.Fold(past), L.Release(claimId, fence), minted, released);
      if released.Err? {
        return Some(released.error);
      }
      ghost var log := journal.events;
      var releasedAt: Instant := *;
      var followed := AppendWithRetry([], ClaimReleased(claimId, releasedAt), races);
      if L.Legal(journal.events) && released.value.Some? {
        assert journal.events[..|log| - 1] == Init(log);
        FencedCallsFail(past, journal.events, |log| - 1, L.Release(claimId, fence), minted);
      }
      failure := if followed.Err? then Some(followed.error) else None;
    }

    method HandoffClaim(claimId: Text, fence: LeaseFence, to: Text, races: nat) returns (r: Result<Lease>)
      requires Consistent()
      modifies journal
      ensures Consistent() && old(journal.events) <= journal.events && old(Mine()) <= Mine()
      ensures L.Legal(journal.events) && L.Superseded(old(journal.events), fence.token) ==> r.Err? && Mine() == old(Mine())
      ensures (&& races == 0 && old(Ready()) && !Blank(to) && OpenClaim(old(journal.events), claimId)
               && L.FenceCheck(L.Fold(old(journal.events)), claimId, fence).None?) ==>
        r.Ok? && r.value.holder == to && |journal.events| == |old(journal.events)| + 2
    {
      hide L.Fold, L.DecideLease, L.Legal, L.Superseded, FoldClaims, Valid, M.Indexed, Named, Blank, Decides, InTerm, L.FenceCheck, Translated, LeaseEvent, M.MemoryJournal.State;
      if Blank(to) {
        return Err(InvalidArgument);
      }
      var claim := GetClaim(claimId, races == 0);
      if claim.None? {
        return Err(NotFound);
      }
      if claim.value.released {
        return Err(LeaseFenced);
      }
      ghost var past := old(journal.events);
      var moved;
      ghost var minted;
      moved, minted := Perform(L.Transfer(claimId, fence, to), races);
      HeldFenceEmits(L.Fold(past), L.Transfer(claimId, fence, to), minted, moved);
      if moved.Err? {
        return Err(moved.error);
      }
      if moved.value.None? {
        TransfersEmit(L.Fold(journal.events), claimId, fence, to, minted);
        assert false;
      }
      ghost var log := journal.events;
      var lease := moved.value.value.lease;
      var handedAt: Instant := *;
      var followed := AppendWithRetry([], ClaimHandedOff(claimId, claim.value.run, to, lease.fence, handedAt), races);
      if L.Legal(journal.events) {
        assert journal.events[..|log| - 1] == Init(log);
        FencedCallsFail(past, journal.events, |log| - 1, L.Transfer(claimId, fence, to), minted);
      }
      r := if followed.Err? then Err(followed.error) else Ok(lease);
    }

    lemma TransfersEmit(p: L.Projection, id: Text, fence: LeaseFence, to: Text, m: L.Minted)
      ensures !L.DecideLease(p, L.Transfer(id, fence, to), m).Settled?
    {
    }

    // A claim is a lease on its worktree key, recorded under the lease's own id; a takeover closes the abandoned claim with it.
    method ClaimWorktree(project: Text, repository: Text, branch: Text, run: Text, races: nat) returns (r: Result<Lease>)
      requires Consistent()
      modifies journal
      ensures Consistent() && old(journal.events) <= journal.events && old(Mine()) <= Mine()
      ensures r.Ok? ==>
        && |Mine()| == |old(Mine())| + 2 && Mine()[|old(Mine())|] < Mine()[|old(Mine())| + 1] < |journal.events|
        && Recorded(journal.events[Mine()[|old(Mine())|]].fields.payload, journal.events[Mine()[|old(Mine())| + 1]].fields.payload, r.value, run)
        && r.value.holder == run && L.Ttl(r.value) == WORKTREE_TTL
        && r.value.resource == W.Key(W.Worktree(project, repository, branch)) && W.Worktree(project, repository, branch).Claimable()
      ensures !W.Worktree(project, repository, branch).Claimable() ==> r == Err(InvalidArgument) && Mine() == old(Mine())
      ensures (&& races == 0 && old(Ready()) && W.Worktree(project, repository, branch).Claimable() && !Blank(run)
               && W.Key(W.Worktree(project, repository, branch)) !in L.Fold(old(journal.events)).byResource) ==>
        r.Ok? && |journal.events| == |old(journal.events)| + 2
    {
      hide L.Fold, FoldClaims, Valid, M.Indexed, Blank, W.Key, Named, Decides, InTerm, L.Ttl, Translated, M.MemoryJournal.State, L.DecideLease, W.Worktree.Joined;
      if Blank(project) || Blank(repository) || Blank(run) || Blank(branch) {
        return Err(InvalidArgument);
      }
      var taken;
      ghost var minted;
      var operation := L.Acquire(W.Key(W.Worktree(project, repository, branch)), run, WORKTREE_TTL);
      taken, minted := Perform(operation, races);
      KeyIsNotBlank(W.Worktree(project, repository, branch));
      FreeIsGranted(L.Fold(old(journal.events)), operation, minted, taken);
      if taken.Err? {
        return Err(taken.error);
      }
      AcquiresGrant(L.Fold(if taken.value.Some? then Init(journal.events) else journal.events), operation, minted);
      if taken.value.None? {
        assert false;
      }
      ghost var log := journal.events;
      var lease, p := taken.value.value.lease, taken.value.value.payload;
      var superseded := if p.LeaseReclaimed? then Some(p.supersededId) else None;
      var followed := AppendWithRetry([], ClaimRecorded(lease.id, run, superseded), races);
      if followed.Err? {
        return Err(followed.error);
      }
      assert journal.events[|log| - 1] == log[|log| - 1];
      r := Ok(lease);
    }

    lemma AcquiresGrant(p: L.Projection, operation: L.Command, m: L.Minted)
      requires operation.Acquire? && m.now > 0
      ensures var v := L.DecideLease(p, operation, m);
        && !v.Settled?
        && (v.Emit? ==>
              && (v.payload.LeaseAcquired? || v.payload.LeaseReclaimed?) && v.payload.lease == v.lease
              && v.lease.resource == operation.resource && v.lease.holder == operation.holder && L.Ttl(v.lease) == operation.ttl)
    {
      if L.DecideLease(p, operation, m).Emit? {
        L.GrantIsAsked(p, operation.resource, operation.holder, operation.ttl, m);
      }
    }

    lemma FreeIsGranted(p: L.Projection, operation: L.Command, m: L.Minted, r: Result<Option<Granted>>)
      requires operation.Acquire? && !Blank(operation.resource) && !Blank(operation.holder) && operation.ttl >= 0
      ensures operation.resource !in p.byResource && Decides(r, L.DecideLease(p, operation, m)) ==> r.Ok? && r.value.Some?
    {
    }

    lemma KeyIsNotBlank(w: W.Worktree)
      ensures !Blank(W.Key(w))
    {
      assert !IsSpace(W.Key(w)[0]);
    }
  }

  // One hour, in nanoseconds.
  const WORKTREE_TTL := 3_600_000_000_000

  predicate Recorded(granted: Payload, claim: Payload, lease: Lease, run: Text) {
    && (granted == LeaseAcquired(lease) || (granted.LeaseReclaimed? && granted.lease == lease))
    && claim == ClaimRecorded(lease.id, run, if granted.LeaseReclaimed? then Some(granted.supersededId) else None)
  }
}
