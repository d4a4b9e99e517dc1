/** Concurrent callers of the agent store over one shared log: every read and append is a step of its own. */
module AgentStores {
  import opened Events
  import opened Chain
  import E = Endpoints
  import L = Leases
  import C = Lifecycles
  import Runs

  const MAX_APPEND_RETRIES := 8

  // One API call: a lease operation, a lifecycle transition, a creation, or a fact without a precondition.
  datatype Command =
    | Leasing(operation: L.Command)
    | Moving(subject: Subject, subjectId: Text, target: Status, disposition: Text)
    | Starting(subject: Subject)
    | Noting(payload: Payload)

  datatype Choice = Append(payload: Payload) | Settle | Refuse(error: Error)

  // Lease and lifecycle events come from these calls only.
  predicate Owned(p: Payload) {
    p.LeaseAcquired? || p.LeaseRenewed? || p.LeaseReleased? || p.LeaseReclaimed? || p.LeaseTransferred? || p.Started? || p.Transitioned?
  }

  // What a call decides from the events it has read, with what it minted for this attempt.
  function Choose(seen: seq<Event>, c: Command, m: L.Minted): Choice {
    match c
    case Leasing(operation) =>
      (match L.DecideLease(L.Fold(seen), operation, m)
       case Emit(payload, _) => Append(payload)
       case Settled => Settle
       case Deny(error) => Choice.Refuse(error))
    case Moving(subject, id, target, disposition) =>
      (match C.DecideTransition(C.FoldRecords(seen, subject), subject, id, target, disposition)
       case Emit(payload) => Append(payload)
       case Deny(error) => Choice.Refuse(error))
    case Starting(subject) => Append(Started(subject, m.leaseId))
    case Noting(payload) => Append(payload)
  }

  // Only these derive their decision from the log.
  predicate ReadsLog(c: Command) {
    c.Leasing? || c.Moving?
  }

  function NextSequence(head: Cursor, epoch: int): int {
    if head.IsZero() then 1 else if head.epoch == epoch then head.sequence + 1 else 1
  }

  datatype Stamp = Stamp(actor: Text, eventId: Text, correlation: Text, occurredAt: Instant)

  // tryAppendAt: one event pinned to the head that was read.
  function EventAt(project: Text, head: Cursor, hash: Digest, epoch: int, stamp: Stamp, payload: Payload): Result<Event> {
    NewEvent(Fields(StateChangeV1, project, stamp.eventId, Cursor(epoch, NextSequence(head, epoch)), stamp.occurredAt,
                    stamp.actor, stamp.eventId, stamp.eventId, stamp.correlation, payload), hash)
  }

  function HeadEpoch(log: seq<Event>): int {
    if log == [] then 1 else Last(log).Cursor().epoch
  }

  // The endpoint is active in the term its log is in.
  predicate InTerm(ep: E.Endpoint) {
    ep.role.Active? && ep.epoch == HeadEpoch(ep.log) && !Blank(ep.project)
  }

  // All that signing looks at besides the cursor.
  predicate Signable(stamp: Stamp, payload: Payload) {
    !Blank(stamp.actor) && !Blank(stamp.eventId) && stamp.occurredAt != 0 && (payload.Other? ==> !Blank(payload.kind))
  }

  // An event built on the head of an active endpoint in its own term, under a new name, is the next event of the log.
  lemma NextIsAccepted(ep: E.Endpoint, stamp: Stamp, payload: Payload)
    requires E.Sound(ep) && InTerm(ep) && Signable(stamp, payload) && !HasId(ep.log, stamp.eventId) && !HasKey(ep.log, stamp.eventId)
    ensures var r := EventAt(ep.project, Head(ep.log), HeadHash(ep.log), ep.epoch, stamp, payload);
      && r.Ok? && r.value.fields.payload == payload && r.value.Id() == stamp.eventId
      && E.Append(ep, r.value).1.None? && E.Append(ep, r.value).0.log == ep.log + [r.value]
  {
    if ep.log != [] {
      Linked(ep.project, ep.log, |ep.log| - 1);
    }
  }

  // translateJournalError: None is a lost race, which is retried.
  function Translate(error: Error): Option<Error> {
    match error
    case RoleFenced => Some(LeaseFenced)
    case EpochFenced => Some(LeaseFenced)
    case SequenceGap => None
    case ChecksumChain => None
    case _ => Some(error)
  }

  // -------------------------------------------------------------- the world

  // Where a call is. Reading the head and reading the log are separate steps; `at` is how long the log was at the first.
  datatype Phase =
    | Trying(command: Command, attempt: nat)
    | HeadRead(command: Command, attempt: nat, head: Cursor, hash: Digest, at: nat)
    | LogRead(command: Command, attempt: nat, head: Cursor, hash: Digest, at: nat, seen: seq<Event>)
    | Waiting(command: Command, attempt: nat, ticket: nat)
    | Answered(command: Command, result: Result<Option<nat>>) // the position of its own event, if it appended one

  // An event handed to the journal and not yet committed; its caller may have stopped waiting.
  datatype Flight = Flight(call: nat, event: Event, command: Command, minted: L.Minted, at: nat, seen: seq<Event>)

  datatype Origin = Origin(call: nat, command: Command, minted: L.Minted)

  datatype World = World(
    ep: E.Endpoint, calls: map<nat, Phase>, flights: map<nat, Flight>,
    origins: seq<Option<Origin>>, // who appended each event of the log
    issued: set<Text>)            // every name NewID has returned

  datatype Action =
    | Begin(call: nat, command: Command)
    | ReadHead(call: nat)
    | ReadLog(call: nat)
    | Submit(call: nat, ticket: nat, minted: L.Minted, stamp: Stamp)
    | Land(ticket: nat, fails: bool)
    | Cancel(call: nat)
    | Foreign(event: Event)
    | Appoint(role: Role, epoch: int)

  function NamesOf(m: L.Minted): set<Text> {
    {m.leaseId, m.token}
  }

  predicate Enabled(w: World, a: Action) {
    match a
    case Begin(n, command) => n !in w.calls && (command.Noting? ==> !Owned(command.payload))
    case ReadHead(n) => n in w.calls && w.calls[n].Trying?
    case ReadLog(n) => n in w.calls && w.calls[n].HeadRead?
    case Submit(n, ticket, m, stamp) =>
      && n in w.calls && (w.calls[n].LogRead? || (w.calls[n].HeadRead? && !ReadsLog(w.calls[n].command)))
      && ticket !in w.flights && m.now > 0
      && NamesOf(m) + {stamp.eventId} !! w.issued && m.leaseId != m.token && stamp.eventId !in NamesOf(m) && !HasId(w.ep.log, stamp.eventId)
    case Land(ticket, fails) => ticket in w.flights
    case Cancel(n) => n in w.calls && w.calls[n].Waiting?
    case Foreign(event) => !Owned(event.fields.payload) && event.Id() !in w.issued
    case Appoint(role, epoch) => true
  }

  function RetryOrGiveUp(command: Command, attempt: nat): Phase {
    if attempt + 1 < MAX_APPEND_RETRIES then Trying(command, attempt + 1) else Answered(command, Err(RetriesExhausted))
  }

  // Where a call goes when it decides and hands its event over.
  function Submitted(w: World, n: nat, ticket: nat, m: L.Minted, stamp: Stamp): World
    requires n in w.calls && (w.calls[n].HeadRead? || w.calls[n].LogRead?)
  {
    var phase := w.calls[n];
    var seen := if phase.LogRead? then phase.seen else w.ep.log;
    var issued := w.issued + NamesOf(m) + {stamp.eventId};
    match Choose(seen, phase.command, m)
    case Settle => w.(calls := w.calls[n := Answered(phase.command, Ok(None))], issued := issued)
    case Refuse(error) => w.(calls := w.calls[n := Answered(phase.command, Err(error))], issued := issued)
    case Append(payload) =>
      match EventAt(w.ep.project, phase.head, phase.hash, m.epoch, stamp, payload)
      case Err(error) => w.(calls := w.calls[n := Answered(phase.command, Err(error))], issued := issued)
      case Ok(event) =>
        if !w.ep.role.Active? || event.Cursor().epoch != w.ep.epoch then
          w.(calls := w.calls[n := Answered(phase.command, Err(LeaseFenced))], issued := issued)
        else
          w.(calls := w.calls[n := Waiting(phase.command, phase.attempt, ticket)],
             flights := w.flights[ticket := Flight(n, event, phase.command, m, phase.at, seen)], issued := issued)
  }

  function Answer(phase: Phase, ticket: nat, position: nat, failure: Option<Error>): Phase {
    if !phase.Waiting? || phase.ticket != ticket then phase
    else if failure.None? then Answered(phase.command, Ok(Some(position)))
    else if Translate(failure.value).None? then RetryOrGiveUp(phase.command, phase.attempt)
    else Answered(phase.command, Err(Translate(failure.value).value))
  }

  // The journal commits or refuses one handed-over event; a failed transaction refuses it too.
  function Landed(w: World, ticket: nat, fails: bool): World
    requires ticket in w.flights
  {
    var f := w.flights[ticket];
    var (after, failure) := if fails then (w.ep, Some(StorageFailure)) else E.AppendData(w.ep, f.event);
    w.(ep := after, flights := w.flights - {ticket},
       origins := if |after.log| > |w.ep.log| then w.origins + [Some(Origin(f.call, f.command, f.minted))] else w.origins,
       calls := if f.call in w.calls then w.calls[f.call := Answer(w.calls[f.call], ticket, |w.ep.log|, failure)] else w.calls)
  }

  function Apply(w: World, a: Action): World
    requires Enabled(w, a)
  {
    match a
    case Begin(n, command) => w.(calls := w.calls[n := Trying(command, 0)])
    case ReadHead(n) =>
      var p := w.calls[n];
      w.(calls := w.calls[n := HeadRead(p.command, p.attempt, Head(w.ep.log), HeadHash(w.ep.log), |w.ep.log|)])
    case ReadLog(n) =>
      var p := w.calls[n];
      w.(calls := w.calls[n := LogRead(p.command, p.attempt, p.head, p.hash, p.at, w.ep.log)])
    case Submit(n, ticket, m, stamp) => Submitted(w, n, ticket, m, stamp)
    case Land(ticket, fails) => Landed(w, ticket, fails)
    case Cancel(n) => w.(calls := w.calls[n := Answered(w.calls[n].command, Err(Interrupted))])
    case Foreign(event) =>
      var after := E.AppendData(w.ep, event).0;
      w.(ep := after, origins := if |after.log| > |w.ep.log| then w.origins + [None] else w.origins)
    case Appoint(role, epoch) => w.(ep := w.ep.(role := role, epoch := epoch))
  }

  ghost predicate Step(w: World, a: Action, x: World) {
    Enabled(w, a) && x == Apply(w, a)
  }

  ghost predicate Reaches(w: World, actions: seq<Action>, x: World) {
    Runs.Leads(Step, w, actions, x)
  }

  lemma Unmoved(w: World, actions: seq<Action>, x: World)
    requires Reaches(w, actions, x) && actions == []
    ensures w == x
  {
    Runs.NoSteps(Step, w, actions, x);
  }

  lemma LastStep(w: World, actions: seq<Action>, x: World) returns (m: World)
    requires Reaches(w, actions, x) && actions != []
    ensures Reaches(w, actions[..|actions| - 1], m) && Enabled(m, actions[|actions| - 1]) && x == Apply(m, actions[|actions| - 1])
  {
    m := Runs.LastStep(Step, w, actions, x);
  }

  lemma OneMoreStep(w: World, actions: seq<Action>, n: nat, m: World)
    requires n < |actions| && Reaches(w, actions[..n], m) && Enabled(m, actions[n])
    ensures Reaches(w, actions[..n + 1], Apply(m, actions[n]))
  {
    assert actions[..n + 1] == actions[..n] + [actions[n]];
    Runs.OneMore(Step, w, actions[..n], m, actions[n], Apply(m, actions[n]));
  }

  lemma NoStepYet(w: World)
    ensures Reaches(w, [], w)
  {
    Runs.NoStepsYet(Step, w);
  }

  predicate Initial(w: World) {
    w.ep.log == [] && w.calls == map[] && w.flights == map[] && w.origins == [] && w.issued == {}
  }

  // --------------------------------------------------------- the invariant

  // The names an event brings into the log.
  function NamesIn(p: Payload): set<Text> {
    match p
    case LeaseAcquired(lease) => {lease.id, lease.fence.token}
    case LeaseReclaimed(lease, _, _, _) => {lease.id, lease.fence.token}
    case LeaseTransferred(_, _, _, fence, _, _) => {fence.token}
    case Started(_, id) => {id}
    case _ => {}
  }

  function Names(log: seq<Event>): set<Text> {
    if log == [] then {} else Names(Init(log)) + NamesIn(Last(log).fields.payload)
  }

  // The event at position i is what its call decides from exactly the log before it, with names new to that log.
  predicate Decided(log: seq<Event>, i: nat, o: Origin)
    requires i < |log|
  {
    && Choose(log[..i], o.command, o.minted) == Append(log[i].fields.payload)
    && NamesOf(o.minted) !! Names(log[..i]) && o.minted.leaseId != o.minted.token && o.minted.now > 0
    && (o.command.Noting? ==> !Owned(o.command.payload))
  }

  predicate Accounted(log: seq<Event>, origins: seq<Option<Origin>>) {
    && |origins| == |log|
    && forall i :: 0 <= i < |log| ==>
         (Owned(log[i].fields.payload) ==> origins[i].Some?) && (origins[i].Some? ==> Decided(log, i, origins[i].value))
  }

  ghost predicate LogInv(w: World) {
    E.Sound(w.ep) && Accounted(w.ep.log, w.origins) && Names(w.ep.log) <= w.issued
  }

  predicate PinnedAt(log: seq<Event>, at: nat, hash: Digest) {
    at <= |log| && hash == HeadHash(log[..at])
  }

  predicate PhaseFits(log: seq<Event>, p: Phase) {
    match p
    case HeadRead(command, _, _, hash, at) => PinnedAt(log, at, hash)
    case LogRead(command, _, _, hash, at, seen) => PinnedAt(log, at, hash) && at <= |seen| && seen <= log
    case _ => true
  }

  predicate PhasesFit(w: World) {
    forall n :: n in w.calls ==> PhaseFits(w.ep.log, w.calls[n]) && (w.calls[n].command.Noting? ==> !Owned(w.calls[n].command.payload))
  }

  predicate FlightFits(log: seq<Event>, issued: set<Text>, f: Flight) {
    && PinnedAt(log, f.at, f.event.previous) && f.at <= |f.seen| && f.seen <= log
    && Choose(f.seen, f.command, f.minted) == Append(f.event.fields.payload)
    && FlightNames(f) <= issued && NamesOf(f.minted) !! Names(log) && !HasId(log, f.event.Id())
    && f.minted.leaseId != f.minted.token && f.minted.now > 0 && (f.command.Noting? ==> !Owned(f.command.payload))
  }

  function FlightNames(f: Flight): set<Text> {
    NamesOf(f.minted) + {f.event.Id()}
  }

  predicate FlightsFit(w: World) {
    && (forall t :: t in w.flights ==> FlightFits(w.ep.log, w.issued, w.flights[t]))
    && (forall t, u :: t in w.flights && u in w.flights && t != u ==>
         FlightNames(w.flights[t]) !! FlightNames(w.flights[u]) && w.flights[t].call != w.flights[u].call)
  }

  predicate OwnsEvent(w: World, n: nat, i: nat) {
    i < |w.origins| && w.origins[i].Some? && w.origins[i].value.call == n
  }

  predicate HasFlight(w: World, n: nat) {
    exists t :: t in w.flights && w.flights[t].call == n
  }

  // A call has at most one event, in flight or in the log; while it has one in the log it has been answered.
  ghost predicate OneEach(w: World) {
    && (forall t :: t in w.flights ==>
         var n := w.flights[t].call;
         && n in w.calls && w.calls[n].command == w.flights[t].command
         && (w.calls[n].Answered? || (w.calls[n].Waiting? && w.calls[n].ticket == t)))
    && (forall n, i: nat :: OwnsEvent(w, n, i) ==> n in w.calls && w.calls[n].Answered? && !HasFlight(w, n))
    && (forall n, i: nat, j: nat :: OwnsEvent(w, n, i) && OwnsEvent(w, n, j) ==> i == j)
  }

  // What an answer means for the log.
  ghost predicate Truthful(w: World, n: nat)
    requires n in w.calls
  {
    match w.calls[n]
    case Answered(command, Ok(Some(i))) => OwnsEvent(w, n, i) && w.origins[i].value.command == command
    case Answered(command, Ok(None)) => !HasFlight(w, n) && forall i: nat :: !OwnsEvent(w, n, i)
    case Answered(command, Err(error)) => error != Interrupted ==> !HasFlight(w, n) && forall i: nat :: !OwnsEvent(w, n, i)
    case _ => true
  }

  ghost predicate Inv(w: World) {
    LogInv(w) && PhasesFit(w) && FlightsFit(w) && OneEach(w) && forall n :: n in w.calls ==> Truthful(w, n)
  }

  // ---------------------------------------------------- compare-and-swap

  // The heart of it: an event pinned to an observed head commits only if nothing at all was appended since that observation.
  lemma PinnedCommitSawEverything(project: Text, log: seq<Event>, at: nat, seen: seq<Event>, e: Event)
    requires Valid(project, log) && PinnedAt(log, at, e.previous) && at <= |seen| && seen <= log
    requires Decide(project, log, e) == Commit
    ensures at == |log| && seen == log
  {
    hide Decide;
    CommitPins(project, log, e);
    ValidPrefix(project, log, at);
    SameHeadHashSameLog(project, log, project, log[..at]);
    assert |log[..at]| == at;
  }

  lemma NamesGrow(log: seq<Event>, e: Event)
    ensures Names(log + [e]) == Names(log) + NamesIn(e.fields.payload)
  {
    assert Init(log + [e]) == log;
  }

  // A decision brings in nothing but the names minted for it.
  lemma ChoiceNames(seen: seq<Event>, c: Command, m: L.Minted)
    requires Choose(seen, c, m).Append? && (c.Noting? ==> !Owned(c.payload))
    ensures NamesIn(Choose(seen, c, m).payload) <= NamesOf(m)
  {
    hide L.Fold, C.FoldRecords, C.ValidateTransition;
  }

  // What a call must have decided, and with which names, to append e right after this log.
  predicate Follows(log: seq<Event>, o: Origin, e: Event) {
    && Choose(log, o.command, o.minted) == Append(e.fields.payload)
    && NamesOf(o.minted) !! Names(log) && o.minted.leaseId != o.minted.token && o.minted.now > 0
    && (o.command.Noting? ==> !Owned(o.command.payload))
  }

  lemma AccountedMore(log: seq<Event>, origins: seq<Option<Origin>>, e: Event, o: Option<Origin>)
    requires Accounted(log, origins) && (Owned(e.fields.payload) ==> o.Some?) && (o.Some? ==> Follows(log, o.value, e))
    ensures Accounted(log + [e], origins + [o])
  {
    hide Choose, Owned;
    var more := log + [e];
    forall i | 0 <= i < |more| && (origins + [o])[i].Some? ensures Decided(more, i, (origins + [o])[i].value) {
      assert more[..i] == log[..i];
      if i == |log| {
        assert log[..i] == log;
      } else {
        assert Decided(log, i, origins[i].value);
      }
    }
  }

  lemma PhaseFitsMore(log: seq<Event>, e: Event, p: Phase)
    requires PhaseFits(log, p)
    ensures PhaseFits(log + [e], p)
  {
    if p.HeadRead? || p.LogRead? {
      assert (log + [e])[..p.at] == log[..p.at];
    }
  }

  lemma FlightFitsMore(log: seq<Event>, issued: set<Text>, f: Flight, e: Event)
    requires FlightFits(log, issued, f) && NamesOf(f.minted) !! NamesIn(e.fields.payload) && e.Id() != f.event.Id()
    ensures FlightFits(log + [e], issued, f)
  {
    hide Choose, Owned;
    assert (log + [e])[..f.at] == log[..f.at];
    NamesGrow(log, e);
    HasIdMore(log, e, f.event.Id());
  }

  // A landing flight either commits, having seen the whole log, or leaves the log alone.
  lemma LandingCommits(w: World, ticket: nat)
    requires LogInv(w) && FlightsFit(w) && ticket in w.flights
    ensures var f := w.flights[ticket]; var (after, failure) := E.AppendData(w.ep, f.event);
      && (failure.None? <==> Decide(w.ep.project, w.ep.log, f.event) == Commit)
      && (failure.Some? ==> after == w.ep)
      && (failure.None? ==> after.log == w.ep.log + [f.event] && Follows(w.ep.log, Origin(f.call, f.command, f.minted), f.event))
  {
    hide Choose, Owned, Names;
    var f := w.flights[ticket];
    DecideExact(w.ep.project, w.ep.log, f.event);
    MemberHasId(w.ep.log, f.event);
    if Decide(w.ep.project, w.ep.log, f.event) == Commit {
      PinnedCommitSawEverything(w.ep.project, w.ep.log, f.at, f.seen, f.event);
    }
  }

  lemma UnownedHasNoNames(p: Payload)
    requires !Owned(p)
    ensures NamesIn(p) == {}
  {
  }

  lemma LandKeepsLog(w: World, ticket: nat, fails: bool)
    requires LogInv(w) && FlightsFit(w) && ticket in w.flights
    ensures LogInv(Landed(w, ticket, fails))
  {
    hide Choose, Decide, Valid, Owned, NamesIn, Names, Accounted, PinnedAt;
    var f := w.flights[ticket];
    LandingCommits(w, ticket);
    E.AppendDataSound(w.ep, f.event);
    if !fails && Decide(w.ep.project, w.ep.log, f.event) == Commit {
      LandedPayload(w.ep.log, f);
      AccountedMore(w.ep.log, w.origins, f.event, Some(Origin(f.call, f.command, f.minted)));
      NamesGrow(w.ep.log, f.event);
    }
  }

  lemma LandedPayload(log: seq<Event>, f: Flight)
    requires Choose(f.seen, f.command, f.minted) == Append(f.event.fields.payload) && (f.command.Noting? ==> !Owned(f.command.payload))
    ensures NamesIn(f.event.fields.payload) <= NamesOf(f.minted)
  {
    ChoiceNames(f.seen, f.command, f.minted);
  }

  lemma LandKeepsPhases(w: World, ticket: nat, fails: bool)
    requires LogInv(w) && PhasesFit(w) && FlightsFit(w) && ticket in w.flights
    ensures PhasesFit(Landed(w, ticket, fails))
  {
    hide Choose, Decide, Valid, FlightFits, PhaseFits, Owned, LogInv;
    LandingCommits(w, ticket);
    var f, x := w.flights[ticket], Landed(w, ticket, fails);
    forall n | n in x.calls ensures PhaseFits(x.ep.log, x.calls[n]) && (x.calls[n].command.Noting? ==> !Owned(x.calls[n].command.payload)) {
      PhaseFitsMore(w.ep.log, f.event, w.calls[n]);
      if x.calls[n] != w.calls[n] {
        SettledFits(x.ep.log, w.calls[n], ticket, |w.ep.log|, if fails then Some(StorageFailure) else E.AppendData(w.ep, f.event).1);
      }
    }
  }

  lemma SettledFits(log: seq<Event>, p: Phase, ticket: nat, position: nat, failure: Option<Error>)
    requires Answer(p, ticket, position, failure) != p
    ensures PhaseFits(log, Answer(p, ticket, position, failure)) && Answer(p, ticket, position, failure).command == p.command
  {
  }

  lemma LandKeepsFlights(w: World, ticket: nat, fails: bool)
    requires LogInv(w) && FlightsFit(w) && ticket in w.flights
    ensures FlightsFit(Landed(w, ticket, fails))
  {
    hide Choose, Decide, Valid, Owned, LogInv;
    LandingCommits(w, ticket);
    var f, x := w.flights[ticket], Landed(w, ticket, fails);
    LandedPayload(w.ep.log, f);
    hide FlightFits;
    forall t | t in x.flights ensures FlightFits(x.ep.log, x.issued, x.flights[t]) {
      if x.ep.log != w.ep.log {
        FlightFitsMore(w.ep.log, w.issued, w.flights[t], f.event);
      }
    }
  }

  // What landing does to the books: one flight fewer, and at most one event more, which belongs to its call.
  predicate Booked(w: World, x: World, ticket: nat)
    requires ticket in w.flights
  {
    var f := w.flights[ticket];
    && x.flights == w.flights - {ticket}
    && (x.origins == w.origins || x.origins == w.origins + [Some(Origin(f.call, f.command, f.minted))])
    && x.calls.Keys == w.calls.Keys
    && (forall n :: n in w.calls && n != f.call ==> x.calls[n] == w.calls[n])
    && (f.call in w.calls ==> Concluded(w.calls[f.call], x.calls[f.call], ticket, |w.origins|, x.origins != w.origins))
  }

  predicate Concluded(p: Phase, q: Phase, ticket: nat, position: nat, committed: bool) {
    && q.command == p.command
    && (p.Answered? ==> q == p)
    && (p.Waiting? && p.ticket == ticket ==>
         if committed then q == Answered(p.command, Ok(Some(position)))
         else q.Trying? || (q.Answered? && q.result.Err? && q.result.error != Interrupted))
  }

  lemma JournalNeverInterrupts(ep: E.Endpoint, e: Event)
    ensures E.AppendData(ep, e).1 != Some(Interrupted)
  {
  }

  lemma AnswerConcludes(p: Phase, ticket: nat, position: nat, failure: Option<Error>)
    requires failure != Some(Interrupted)
    ensures Concluded(p, Answer(p, ticket, position, failure), ticket, position, failure.None?)
  {
  }

  lemma LandingBooks(w: World, ticket: nat, fails: bool)
    requires LogInv(w) && FlightsFit(w) && ticket in w.flights
    ensures Booked(w, Landed(w, ticket, fails), ticket)
  {
    hide Choose, Owned, Names, Decide, Concluded, Answer, FlightFits, Valid;
    var f := w.flights[ticket];
    LandingCommits(w, ticket);
    JournalNeverInterrupts(w.ep, f.event);
    if f.call in w.calls {
      AnswerConcludes(w.calls[f.call], ticket, |w.ep.log|, if fails then Some(StorageFailure) else E.AppendData(w.ep, f.event).1);
    }
  }

  lemma BookedOwns(w: World, x: World, ticket: nat, n: nat, i: nat)
    requires ticket in w.flights && Booked(w, x, ticket)
    ensures OwnsEvent(x, n, i) <==> OwnsEvent(w, n, i) || (x.origins != w.origins && n == w.flights[ticket].call && i == |w.origins|)
    ensures OwnsEvent(w, n, i) ==> i < |w.origins| && x.origins[i] == w.origins[i]
  {
  }

  lemma BookedFlight(w: World, x: World, ticket: nat, n: nat)
    requires ticket in w.flights && Booked(w, x, ticket) && FlightsFit(w)
    ensures HasFlight(x, n) <==> HasFlight(w, n) && n != w.flights[ticket].call
  {
    hide FlightFits, Concluded;
    if HasFlight(w, n) && n != w.flights[ticket].call {
      var t :| t in w.flights && w.flights[t].call == n;
      assert t in x.flights;
    }
  }

  lemma BookedOneEach(w: World, x: World, ticket: nat)
    requires ticket in w.flights && Booked(w, x, ticket) && FlightsFit(w) && OneEach(w)
    ensures OneEach(x)
  {
    hide FlightFits, HasFlight, OwnsEvent;
    var c := w.flights[ticket].call;
    assert HasFlight(w, c) by { CallFlies(w, ticket); }
    forall n: nat, i: nat | OwnsEvent(x, n, i) ensures n in x.calls && x.calls[n].Answered? && !HasFlight(x, n) {
      BookedOwns(w, x, ticket, n, i);
      BookedFlight(w, x, ticket, n);
    }
    forall n: nat, i: nat, j: nat | OwnsEvent(x, n, i) && OwnsEvent(x, n, j) ensures i == j {
      BookedOwns(w, x, ticket, n, i);
      BookedOwns(w, x, ticket, n, j);
    }
  }

  lemma CallFlies(w: World, ticket: nat)
    requires ticket in w.flights
    ensures HasFlight(w, w.flights[ticket].call)
  {
  }

  lemma BookedTruth(w: World, x: World, ticket: nat, n: nat)
    requires ticket in w.flights && Booked(w, x, ticket) && FlightsFit(w) && OneEach(w) && n in w.calls && Truthful(w, n)
    ensures Truthful(x, n)
  {
    hide FlightFits, HasFlight, OwnsEvent;
    CallFlies(w, ticket);
    BookedFlight(w, x, ticket, n);
    forall i: nat ensures OwnsEvent(x, n, i) <==> OwnsEvent(w, n, i) || (x.origins != w.origins && n == w.flights[ticket].call && i == |w.origins|)
      ensures OwnsEvent(w, n, i) ==> i < |w.origins| && x.origins[i] == w.origins[i] {
      BookedOwns(w, x, ticket, n, i);
    }
  }

  lemma LandKeeps(w: World, ticket: nat, fails: bool)
    requires Inv(w) && ticket in w.flights
    ensures Inv(Landed(w, ticket, fails))
  {
    hide Landed, LogInv, PhasesFit, FlightsFit, OneEach, Truthful;
    var x := Landed(w, ticket, fails);
    LandKeepsLog(w, ticket, fails);
    LandKeepsPhases(w, ticket, fails);
    LandKeepsFlights(w, ticket, fails);
    LandingBooks(w, ticket, fails);
    BookedOneEach(w, x, ticket);
    forall n | n in x.calls ensures Truthful(x, n) {
      BookedTruth(w, x, ticket, n);
    }
  }

  // -------------------------------------------------------- the other steps

  // A call moves to another phase without an event of its own.
  lemma MoveKeeps(w: World, n: nat, phase: Phase, issued: set<Text>)
    requires Inv(w) && w.issued <= issued && PhaseFits(w.ep.log, phase) && (phase.command.Noting? ==> !Owned(phase.command.payload))
    requires n in w.calls ==> phase.command == w.calls[n].command && !w.calls[n].Answered? && !w.calls[n].Waiting?
    requires !phase.Waiting? && (phase.Answered? ==> n in w.calls && (phase.result.Err? || phase.result.value.None?))
    ensures Inv(w.(calls := w.calls[n := phase], issued := issued))
  {
    hide LogInv, FlightFits, PhaseFits, Owned, OwnsEvent, HasFlight, OneEach, Truthful, FlightNames;
    var x := w.(calls := w.calls[n := phase], issued := issued);
    LogInvIssued(w, x);
    forall t | t in x.flights ensures FlightFits(x.ep.log, x.issued, x.flights[t]) {
      FlightIssued(w.ep.log, w.issued, issued, w.flights[t]);
    }
    IdleBooks(w, x, n);
    forall k | k in x.calls ensures Truthful(x, k) {
      if k != n { assert Truthful(w, k); }
    }
  }

  // A phase changes; nobody's event does.
  lemma IdleBooks(w: World, x: World, n: nat)
    requires OneEach(w) && x.flights == w.flights && x.origins == w.origins
    requires n in x.calls && x.calls == w.calls[n := x.calls[n]]
    requires n in w.calls ==> !w.calls[n].Answered? && !w.calls[n].Waiting?
    requires !x.calls[n].Waiting? && (x.calls[n].Answered? ==> x.calls[n].result.Err? || x.calls[n].result.value.None?)
    ensures OneEach(x) && Truthful(x, n) && forall k :: k in w.calls && k != n && Truthful(w, k) ==> Truthful(x, k)
  {
    IdleHasNothing(w, n);
    SameBooks(w, x);
    hide OwnsEvent, HasFlight;
  }

  lemma LogInvIssued(w: World, x: World)
    requires LogInv(w) && x.ep == w.ep && x.origins == w.origins && w.issued <= x.issued
    ensures LogInv(x)
  {
  }

  lemma FlightIssued(log: seq<Event>, issued: set<Text>, more: set<Text>, f: Flight)
    requires FlightFits(log, issued, f) && issued <= more
    ensures FlightFits(log, more, f)
  {
  }

  // A call that is neither waiting nor answered has no event in flight or in the log.
  lemma IdleHasNothing(w: World, n: nat)
    requires OneEach(w) && (n in w.calls ==> !w.calls[n].Answered? && !w.calls[n].Waiting?)
    ensures !HasFlight(w, n) && forall i: nat :: !OwnsEvent(w, n, i)
  {
  }

  lemma SameBooks(w: World, x: World)
    requires x.flights == w.flights && x.origins == w.origins
    ensures forall n: nat :: HasFlight(x, n) <==> HasFlight(w, n)
    ensures forall n: nat, i: nat :: OwnsEvent(x, n, i) <==> OwnsEvent(w, n, i)
  {
  }

  // The event built for a call is pinned to the head it read and carries what it decided.
  lemma EventPinned(project: Text, head: Cursor, hash: Digest, epoch: int, stamp: Stamp, payload: Payload)
    ensures var r := EventAt(project, head, hash, epoch, stamp, payload);
      r.Ok? ==> r.value.previous == hash && r.value.fields.payload == payload && r.value.Id() == stamp.eventId
  {
  }

  // A flight just taken off: decided from what the call read, pinned to the head it read, under fresh names.
  predicate TakesOff(w: World, n: nat, ticket: nat, f: Flight, names: set<Text>) {
    && n in w.calls && !w.calls[n].Answered? && !w.calls[n].Waiting? && ticket !in w.flights
    && f.call == n && f.command == w.calls[n].command && FlightNames(f) == names && names !! w.issued
    && PinnedAt(w.ep.log, f.at, f.event.previous) && f.at <= |f.seen| && f.seen <= w.ep.log
    && Choose(f.seen, f.command, f.minted) == Append(f.event.fields.payload)
    && !HasId(w.ep.log, f.event.Id()) && f.minted.leaseId != f.minted.token && f.minted.now > 0
  }

  lemma TakeOffFits(w: World, n: nat, ticket: nat, f: Flight, names: set<Text>)
    requires LogInv(w) && PhasesFit(w) && TakesOff(w, n, ticket, f, names)
    ensures FlightFits(w.ep.log, w.issued + names, f)
  {
    hide Choose, Owned, Decide, Valid, PhaseFits, HasId, Accounted;
  }

  lemma TakeOffKeepsFlights(w: World, n: nat, ticket: nat, f: Flight, names: set<Text>)
    requires LogInv(w) && PhasesFit(w) && FlightsFit(w) && OneEach(w) && TakesOff(w, n, ticket, f, names)
    ensures FlightsFit(w.(calls := w.calls[n := Waiting(f.command, w.calls[n].attempt, ticket)], flights := w.flights[ticket := f], issued := w.issued + names))
  {
    hide LogInv, PhasesFit, Truthful, PinnedAt, Choose, HasId, Owned;
    TakeOffFits(w, n, ticket, f, names);
    IdleHasNothing(w, n);
    hide OneEach;
    forall t | t in w.flights ensures FlightFits(w.ep.log, w.issued + names, w.flights[t]) && w.flights[t].call != n && FlightNames(w.flights[t]) <= w.issued {
      FlightIssued(w.ep.log, w.issued, w.issued + names, w.flights[t]);
      FlightNamesIssued(w.ep.log, w.issued, w.flights[t]);
    }
    NamesApart(w.flights, f, names, w.issued);
    hide FlightFits, TakesOff, FlightNames;
  }

  lemma FlightNamesIssued(log: seq<Event>, issued: set<Text>, f: Flight)
    requires FlightFits(log, issued, f)
    ensures FlightNames(f) <= issued
  {
  }

  lemma NamesApart(flights: map<nat, Flight>, f: Flight, names: set<Text>, issued: set<Text>)
    requires FlightNames(f) == names && names !! issued
    requires forall t :: t in flights ==> FlightNames(flights[t]) <= issued
    ensures forall t :: t in flights ==> FlightNames(flights[t]) !! FlightNames(f)
  {
    hide FlightNames;
  }

  lemma TakeOffKeepsBooks(w: World, n: nat, ticket: nat, f: Flight, issued: set<Text>)
    requires OneEach(w) && n in w.calls && !w.calls[n].Answered? && !w.calls[n].Waiting? && ticket !in w.flights
    requires f.call == n && f.command == w.calls[n].command
    ensures var x := w.(calls := w.calls[n := Waiting(f.command, w.calls[n].attempt, ticket)], flights := w.flights[ticket := f], issued := issued);
      && OneEach(x)
      && (forall k :: k in w.calls && Truthful(w, k) ==> Truthful(x, k))
  {
    IdleHasNothing(w, n);
    var x := w.(calls := w.calls[n := Waiting(f.command, w.calls[n].attempt, ticket)], flights := w.flights[ticket := f], issued := issued);
    assert forall k: nat, i: nat :: OwnsEvent(x, k, i) <==> OwnsEvent(w, k, i);
    forall k: nat | k != n ensures HasFlight(x, k) <==> HasFlight(w, k) {
      if t :| t in w.flights && w.flights[t].call == k {
        assert t in x.flights && x.flights[t].call == k;
      }
    }
  }

  lemma TakeOffKeeps(w: World, n: nat, ticket: nat, f: Flight, names: set<Text>)
    requires Inv(w) && TakesOff(w, n, ticket, f, names)
    ensures Inv(w.(calls := w.calls[n := Waiting(f.command, w.calls[n].attempt, ticket)], flights := w.flights[ticket := f], issued := w.issued + names))
  {
    hide OneEach, Truthful, FlightsFit, LogInv, PhaseFits, Owned, PinnedAt, Choose, HasId;
    var x := w.(calls := w.calls[n := Waiting(f.command, w.calls[n].attempt, ticket)], flights := w.flights[ticket := f], issued := w.issued + names);
    LogInvIssued(w, x);
    TakeOffKeepsFlights(w, n, ticket, f, names);
    TakeOffKeepsBooks(w, n, ticket, f, w.issued + names);
    WaitingFits(w.ep.log, x.calls[n]);
    assert PhasesFit(x);
  }

  lemma WaitingFits(log: seq<Event>, p: Phase)
    requires p.Waiting? || p.Answered? || p.Trying?
    ensures PhaseFits(log, p)
  {
  }

  lemma SubmitKeeps(w: World, n: nat, ticket: nat, m: L.Minted, stamp: Stamp)
    requires Inv(w) && Enabled(w, Submit(n, ticket, m, stamp))
    ensures Inv(Submitted(w, n, ticket, m, stamp))
  {
    hide LogInv, FlightsFit, OneEach, Truthful, Choose, EventAt, Owned;
    var p, x := w.calls[n], Submitted(w, n, ticket, m, stamp);
    var names := NamesOf(m) + {stamp.eventId};
    var seen := if p.LogRead? then p.seen else w.ep.log;
    assert w.issued + names == w.issued + NamesOf(m) + {stamp.eventId};
    assert PhaseFits(w.ep.log, p);
    if x.calls[n].Waiting? {
      var payload := Choose(seen, p.command, m).payload;
      EventPinned(w.ep.project, p.head, p.hash, m.epoch, stamp, payload);
      var f := x.flights[ticket];
      TakeOffKeeps(w, n, ticket, f, names);
      assert x == w.(calls := w.calls[n := Waiting(f.command, p.attempt, ticket)], flights := w.flights[ticket := f], issued := w.issued + names);
    } else {
      WaitingFits(w.ep.log, x.calls[n]);
      MoveKeeps(w, n, x.calls[n], w.issued + names);
    }
  }

  lemma CancelKeeps(w: World, n: nat)
    requires Inv(w) && n in w.calls && w.calls[n].Waiting?
    ensures Inv(w.(calls := w.calls[n := Answered(w.calls[n].command, Err(Interrupted))]))
  {
    hide LogInv, FlightsFit, PhaseFits, Owned, OneEach, Truthful;
    var x := w.(calls := w.calls[n := Answered(w.calls[n].command, Err(Interrupted))]);
    LogInvIssued(w, x);
    WaitingFits(w.ep.log, x.calls[n]);
    SameFlights(w, x);
    CancelBooks(w, x, n);
  }

  lemma SameFlights(w: World, x: World)
    requires FlightsFit(w) && x.ep.log == w.ep.log && x.flights == w.flights && x.issued == w.issued
    ensures FlightsFit(x)
  {
    hide FlightFits, FlightNames;
  }

  lemma CancelBooks(w: World, x: World, n: nat)
    requires OneEach(w) && (forall k :: k in w.calls ==> Truthful(w, k)) && n in w.calls && w.calls[n].Waiting?
    requires x.flights == w.flights && x.origins == w.origins && x.calls == w.calls[n := Answered(w.calls[n].command, Err(Interrupted))]
    ensures OneEach(x) && forall k :: k in x.calls ==> Truthful(x, k)
  {
    SameBooks(w, x);
    hide OwnsEvent, HasFlight;
    forall k | k in x.calls ensures Truthful(x, k) {
      if k != n { assert Truthful(w, k); }
    }
  }

  lemma ForeignKeepsBooks(w: World, x: World)
    requires OneEach(w) && x.flights == w.flights && x.calls == w.calls && (x.origins == w.origins || x.origins == w.origins + [None])
    ensures OneEach(x) && forall k :: k in w.calls && Truthful(w, k) ==> Truthful(x, k)
  {
    forall k: nat, i: nat ensures OwnsEvent(x, k, i) <==> OwnsEvent(w, k, i) {
    }
    forall k: nat ensures HasFlight(x, k) <==> HasFlight(w, k) {
    }
  }

  lemma ForeignKeeps(w: World, e: Event)
    requires Inv(w) && Enabled(w, Foreign(e))
    ensures Inv(Apply(w, Foreign(e)))
  {
    hide Choose, Decide, Valid, Owned, OneEach, Truthful, PhaseFits, FlightFits, Names, NamesIn, FlightNames, Accounted;
    var x := Apply(w, Foreign(e));
    E.AppendDataSound(w.ep, e);
    ForeignKeepsBooks(w, x);
    if x.ep.log != w.ep.log {
      UnownedHasNoNames(e.fields.payload);
      NamesGrow(w.ep.log, e);
      AccountedMore(w.ep.log, w.origins, e, None);
      forall n | n in x.calls ensures PhaseFits(x.ep.log, x.calls[n]) {
        PhaseFitsMore(w.ep.log, e, w.calls[n]);
      }
      forall t | t in x.flights ensures FlightFits(x.ep.log, x.issued, x.flights[t]) {
        FlightNameIssued(w.ep.log, w.issued, w.flights[t]);
        FlightFitsMore(w.ep.log, w.issued, w.flights[t], e);
      }
    }
  }

  lemma FlightNameIssued(log: seq<Event>, issued: set<Text>, f: Flight)
    requires FlightFits(log, issued, f)
    ensures f.event.Id() in issued
  {
  }

  lemma AppointKeeps(w: World, role: Role, epoch: int)
    requires Inv(w)
    ensures Inv(w.(ep := w.ep.(role := role, epoch := epoch)))
  {
    hide Choose, Decide, Owned, FlightFits, PhaseFits;
    var x := w.(ep := w.ep.(role := role, epoch := epoch));
    SameBooks(w, x);
    forall k | k in x.calls ensures Truthful(x, k) {
      assert Truthful(w, k);
    }
  }

  lemma ReadHeadFits(w: World, n: nat)
    requires n in w.calls && w.calls[n].Trying?
    ensures PhaseFits(w.ep.log, Apply(w, ReadHead(n)).calls[n])
  {
    assert w.ep.log[..|w.ep.log|] == w.ep.log;
  }

  lemma StepKeepsInv(w: World, a: Action)
    requires Inv(w) && Enabled(w, a)
    ensures Inv(Apply(w, a))
  {
    hide LogInv, FlightsFit, OneEach, Truthful, Submitted, Landed, Choose, Owned;
    match a
    case Begin(n, command) => MoveKeeps(w, n, Trying(command, 0), w.issued);
    case ReadHead(n) =>
      ReadHeadFits(w, n);
      MoveKeeps(w, n, Apply(w, a).calls[n], w.issued);
    case ReadLog(n) => MoveKeeps(w, n, Apply(w, a).calls[n], w.issued);
    case Submit(n, ticket, m, stamp) => SubmitKeeps(w, n, ticket, m, stamp);
    case Land(ticket, fails) => LandKeeps(w, ticket, fails);
    case Cancel(n) => CancelKeeps(w, n);
    case Foreign(event) => ForeignKeeps(w, event);
    case Appoint(role, epoch) => AppointKeeps(w, role, epoch);
  }

  lemma {:induction false} ReachedInv(w: World, actions: seq<Action>, x: World)
    requires Initial(w) && Reaches(w, actions, x)
    ensures Inv(x)
  {
    hide Inv, Apply, Enabled, Reaches;
    if actions == [] {
      Unmoved(w, actions, x);
      InitialInv(w);
    } else {
      var n := |actions| - 1;
      var m := LastStep(w, actions, x);
      ReachedInv(w, actions[..n], m);
      StepKeepsInv(m, actions[n]);
    }
  }

  lemma InitialInv(w: World)
    requires Initial(w)
    ensures Inv(w)
  {
  }

  // ----------------------------------------------------------- main results

  // Names grow with the log, and cover everything the lease automaton and the lifecycle folds ever saw.
  lemma {:induction false} NamesCover(log: seq<Event>, subject: Subject)
    ensures L.Run(log).ids <= Names(log) && L.Run(log).tokens <= Names(log)
    ensures C.FoldRecords(log, subject).Keys <= Names(log)
  {
    hide L.MayFollow;
    if log != [] {
      NamesCover(Init(log), subject);
    }
  }

  lemma OtherKindsFollow(a: L.Automaton, records: C.Records, subject: Subject, p: Payload)
    ensures !p.Started? && !p.Transitioned? ==> C.MayFollow(records, subject, p)
    ensures p.Started? || p.Transitioned? || !Owned(p) ==> L.MayFollow(a, p)
  {
  }

  lemma LeaseKind(p: L.Projection, c: L.Command, m: L.Minted)
    requires L.DecideLease(p, c, m).Emit?
    ensures !L.DecideLease(p, c, m).payload.Started? && !L.DecideLease(p, c, m).payload.Transitioned?
  {
  }

  lemma MoveKind(records: C.Records, s: Subject, id: Text, target: Status, disposition: Text)
    requires C.DecideTransition(records, s, id, target, disposition).Emit?
    ensures C.DecideTransition(records, s, id, target, disposition).payload == Transitioned(s, id, records[id].status, target, disposition)
  {
  }

  lemma DecidedIsLegal(log: seq<Event>, e: Event, o: Origin, subject: Subject)
    requires L.Legal(log) && Follows(log, o, e)
    ensures L.MayFollow(L.Run(log), e.fields.payload)
    ensures C.MayFollow(C.FoldRecords(log, subject), subject, e.fields.payload)
  {
    NamesCover(log, subject);
    OtherKindsFollow(L.Run(log), C.FoldRecords(log, subject), subject, e.fields.payload);
    hide L.Legal, L.Run, L.Fold, C.FoldRecords, Names, L.MayFollow, L.DecideLease, C.DecideTransition;
    match o.command
    case Leasing(operation) =>
      L.DecisionIsLegal(log, operation, o.minted);
      LeaseKind(L.Fold(log), operation, o.minted);
    case Moving(s, id, target, disposition) =>
      C.DecisionIsLegal(log, s, id, target, disposition);
      MoveKind(C.FoldRecords(log, s), s, id, target, disposition);
    case Starting(s) =>
    case Noting(payload) =>
  }

  // From one decision per event to a run of both automata.
  lemma {:induction false} AccountedIsLegal(log: seq<Event>, origins: seq<Option<Origin>>, subject: Subject)
    requires Accounted(log, origins)
    ensures L.Legal(log) && C.Legal(log, subject)
  {
    if log != [] {
      var n := |log| - 1;
      AccountedLess(log, origins);
      AccountedIsLegal(Init(log), origins[..n], subject);
      hide L.MayFollow, C.MayFollow, Owned, Choose;
      assert log[..n] == Init(log);
      if origins[n].Some? {
        assert Decided(log, n, origins[n].value);
        DecidedIsLegal(Init(log), Last(log), origins[n].value, subject);
      } else {
        OtherKindsFollow(L.Run(Init(log)), C.FoldRecords(Init(log), subject), subject, Last(log).fields.payload);
        NotOwnedKind(Last(log).fields.payload);
      }
    }
  }

  lemma NotOwnedKind(p: Payload)
    requires !Owned(p)
    ensures !p.Started? && !p.Transitioned?
  {
  }

  lemma AccountedLess(log: seq<Event>, origins: seq<Option<Origin>>)
    requires Accounted(log, origins) && log != []
    ensures Accounted(Init(log), origins[..|log| - 1])
  {
    hide Choose, Owned;
    var n := |log| - 1;
    forall i | 0 <= i < n && origins[i].Some? ensures Decided(Init(log), i, origins[i].value) {
      assert Decided(log, i, origins[i].value);
      assert Init(log)[..i] == log[..i];
    }
  }

  // Linearizability: under every interleaving of head reads, log reads, appends, crashes, cancellations, other writers and
  // promotions, the lease events form a run of the sequential automaton, the transition events walk the lifecycle table,
  // and every event of a call is exactly what that call decides from the log immediately before it.
  lemma Linearizable(w0: World, actions: seq<Action>, w: World, subject: Subject)
    requires Initial(w0) && Reaches(w0, actions, w)
    ensures L.Legal(w.ep.log) && C.Legal(w.ep.log, subject)
    ensures |w.origins| == |w.ep.log|
    ensures forall i :: 0 <= i < |w.ep.log| && w.origins[i].Some? ==> Decided(w.ep.log, i, w.origins[i].value)
    ensures forall i :: 0 <= i < |w.ep.log| && Owned(w.ep.log[i].fields.payload) ==> w.origins[i].Some?
  {
    hide Decided, Owned;
    ReachedInv(w0, actions, w);
    AccountedIsLegal(w.ep.log, w.origins, subject);
  }

  // A call that was told it succeeded has exactly one event, at the position it was told; a call told it failed, unless it
  // stopped waiting, has none and never will.
  lemma AnswersAreTrue(w0: World, actions: seq<Action>, w: World, n: nat)
    requires Initial(w0) && Reaches(w0, actions, w) && n in w.calls && w.calls[n].Answered?
    ensures Truthful(w, n)
    ensures forall i: nat :: OwnsEvent(w, n, i) ==> i < |w.ep.log| && Decided(w.ep.log, i, w.origins[i].value)
    ensures forall i: nat, j: nat :: OwnsEvent(w, n, i) && OwnsEvent(w, n, j) ==> i == j
  {
    hide Decided, FlightsFit, PhasesFit, Truthful, Owned, HasFlight;
    ReachedInv(w0, actions, w);
  }

  // ------------------------------------------------------------- progress

  // One attempt with nothing between its steps.
  function Attempt(n: nat, ticket: nat, m: L.Minted, stamp: Stamp): seq<Action> {
    [ReadHead(n), ReadLog(n), Submit(n, ticket, m, stamp), Land(ticket, false)]
  }

  predicate Undisputed(w: World, n: nat, ticket: nat, m: L.Minted, stamp: Stamp) {
    && n in w.calls && w.calls[n].Trying? && ticket !in w.flights && m.epoch == w.ep.epoch && m.now > 0 && InTerm(w.ep)
    && NamesOf(m) + {stamp.eventId} !! w.issued && m.leaseId != m.token && stamp.eventId !in NamesOf(m)
    && !HasId(w.ep.log, stamp.eventId) && !HasKey(w.ep.log, stamp.eventId)
  }

  lemma ReadsBoth(w: World, n: nat)
    requires n in w.calls && w.calls[n].Trying?
    ensures Enabled(w, ReadHead(n)) && Enabled(Apply(w, ReadHead(n)), ReadLog(n))
    ensures var p := w.calls[n];
      Apply(Apply(w, ReadHead(n)), ReadLog(n))
      == w.(calls := w.calls[n := LogRead(p.command, p.attempt, Head(w.ep.log), HeadHash(w.ep.log), |w.ep.log|, w.ep.log)])
  {
  }

  lemma SubmitsAndLands(w: World, n: nat, ticket: nat, m: L.Minted, stamp: Stamp, read: World, payload: Payload) returns (event: Event)
    requires E.Sound(w.ep) && Undisputed(w, n, ticket, m, stamp) && Signable(stamp, payload)
    requires read == w.(calls := w.calls[n := LogRead(w.calls[n].command, w.calls[n].attempt, Head(w.ep.log), HeadHash(w.ep.log), |w.ep.log|, w.ep.log)])
    requires Choose(w.ep.log, w.calls[n].command, m) == Append(payload)
    ensures Enabled(read, Submit(n, ticket, m, stamp)) && Enabled(Apply(read, Submit(n, ticket, m, stamp)), Land(ticket, false))
    ensures var done := Apply(Apply(read, Submit(n, ticket, m, stamp)), Land(ticket, false));
      && done.ep.log == w.ep.log + [event] && event.fields.payload == payload
      && n in done.calls && done.calls[n] == Answered(w.calls[n].command, Ok(Some(|w.ep.log|)))
  {
    hide Choose, Decide, Valid, EventAt, Translate, HasId, HasKey;
    NextIsAccepted(w.ep, stamp, payload);
    event := EventAt(w.ep.project, Head(w.ep.log), HeadHash(w.ep.log), w.ep.epoch, stamp, payload).value;
  }

  lemma DecidesAtOnce(w: World, n: nat, ticket: nat, m: L.Minted, stamp: Stamp, read: World)
    requires Undisputed(w, n, ticket, m, stamp) && !Choose(w.ep.log, w.calls[n].command, m).Append?
    requires read == w.(calls := w.calls[n := LogRead(w.calls[n].command, w.calls[n].attempt, Head(w.ep.log), HeadHash(w.ep.log), |w.ep.log|, w.ep.log)])
    ensures Enabled(read, Submit(n, ticket, m, stamp))
    ensures var done, choice := Apply(read, Submit(n, ticket, m, stamp)), Choose(w.ep.log, w.calls[n].command, m);
      && done.ep == w.ep && n in done.calls
      && done.calls[n] == Answered(w.calls[n].command, if choice.Settle? then Ok(None) else Err(choice.error))
  {
    hide Choose, EventAt;
  }

  // A call that nobody gets in the way of, whichever attempt it is in, succeeds: on an active endpoint in its own term one
  // attempt without a failing transaction appends what the call decides from the log and answers with its position.
  lemma UncontendedSucceeds(w0: World, actions: seq<Action>, w: World, n: nat, ticket: nat, m: L.Minted, stamp: Stamp) returns (done: World)
    requires Initial(w0) && Reaches(w0, actions, w) && Undisputed(w, n, ticket, m, stamp)
    ensures var command, choice := w.calls[n].command, Choose(w.ep.log, w.calls[n].command, m);
      if choice.Append? then
        Signable(stamp, choice.payload) ==>
          && Reaches(w, Attempt(n, ticket, m, stamp), done)
          && |done.ep.log| == |w.ep.log| + 1 && Init(done.ep.log) == w.ep.log && Last(done.ep.log).fields.payload == choice.payload
          && n in done.calls && done.calls[n] == Answered(command, Ok(Some(|w.ep.log|)))
      else
        && Reaches(w, Attempt(n, ticket, m, stamp)[..3], done) && done.ep == w.ep
        && n in done.calls && done.calls[n] == Answered(command, if choice.Settle? then Ok(None) else Err(choice.error))
  {
    hide Inv, Reaches, Enabled, Apply, Undisputed, Choose, Valid, Signable;
    ReachedInv(w0, actions, w);
    InvSound(w);
    UndisputedTries(w, n, ticket, m, stamp);
    var steps := Attempt(n, ticket, m, stamp);
    ReadsBoth(w, n);
    NoStepYet(w);
    OneMoreStep(w, steps, 0, w);
    var head := Apply(w, steps[0]);
    OneMoreStep(w, steps, 1, head);
    var read := Apply(head, steps[1]);
    done := read;
    if Choose(w.ep.log, w.calls[n].command, m).Append? {
      var payload := Choose(w.ep.log, w.calls[n].command, m).payload;
      if Signable(stamp, payload) {
        var event := SubmitsAndLands(w, n, ticket, m, stamp, read, payload);
        OneMoreStep(w, steps, 2, read);
        OneMoreStep(w, steps, 3, Apply(read, steps[2]));
        done := Apply(Apply(read, steps[2]), steps[3]);
        assert steps[..4] == steps;
      }
    } else {
      DecidesAtOnce(w, n, ticket, m, stamp, read);
      OneMoreStep(w, steps, 2, read);
      done := Apply(read, steps[2]);
    }
  }

  // A call whose good event came too late, because somebody else wrote in the same term since its head read, tries again from
  // a fresh read, until its eighth attempt is lost.
  lemma LostRaceIsRetried(w0: World, actions: seq<Action>, w: World, ticket: nat)
    requires Initial(w0) && Reaches(w0, actions, w) && ticket in w.flights && w.flights[ticket].call in w.calls
    requires w.calls[w.flights[ticket].call].Waiting? && w.flights[ticket].at < |w.ep.log|
    requires var e := w.flights[ticket].event;
      Verify(e).None? && e.fields.projectId == w.ep.project && !HasKey(w.ep.log, e.Key()) && e.Cursor().epoch == HeadEpoch(w.ep.log)
    ensures var n, x := w.flights[ticket].call, Apply(w, Land(ticket, false));
      && x.ep == w.ep && n in x.calls
      && x.calls[n] == if w.calls[n].attempt < 7 then Trying(w.calls[n].command, w.calls[n].attempt + 1)
                       else Answered(w.calls[n].command, Err(RetriesExhausted))
  {
    hide Choose, Owned, Names, Valid, PhasesFit, Truthful, LogInv, FlightsFit;
    ReachedInv(w0, actions, w);
    InvSound(w);
    FliesAs(w, ticket);
    var f := w.flights[ticket];
    DecideExact(w.ep.project, w.ep.log, f.event);
    MemberHasId(w.ep.log, f.event);
    PinnedCommits(w.ep.project, w.ep.log, f);
  }

  lemma FliesAs(w: World, ticket: nat)
    requires Inv(w) && ticket in w.flights
    ensures FlightFits(w.ep.log, w.issued, w.flights[ticket])
    ensures var n := w.flights[ticket].call; n in w.calls && w.calls[n].Waiting? ==> w.calls[n].ticket == ticket
  {
  }

  lemma PinnedCommits(project: Text, log: seq<Event>, f: Flight)
    requires Valid(project, log) && PinnedAt(log, f.at, f.event.previous) && f.at <= |f.seen| && f.seen <= log && f.at < |log|
    ensures Decide(project, log, f.event) != Commit
  {
    if Decide(project, log, f.event) == Commit {
      PinnedCommitSawEverything(project, log, f.at, f.seen, f.event);
    }
  }

  lemma UndisputedTries(w: World, n: nat, ticket: nat, m: L.Minted, stamp: Stamp)
    requires Undisputed(w, n, ticket, m, stamp)
    ensures n in w.calls && w.calls[n].Trying?
  {
  }

  lemma InvSound(w: World)
    requires Inv(w)
    ensures E.Sound(w.ep)
  {
  }

  lemma SubmitStays(w: World, k: nat, ticket: nat, m: L.Minted, stamp: Stamp, n: nat)
    requires k in w.calls && (w.calls[k].HeadRead? || w.calls[k].LogRead?) && n in w.calls && w.calls[n].Answered? && ticket !in w.flights
    ensures Settles(w, Submitted(w, k, ticket, m, stamp), n)
  {
    hide Choose, EventAt;
    var x := Submitted(w, k, ticket, m, stamp);
    forall i: nat ensures OwnsEvent(x, n, i) <==> OwnsEvent(w, n, i) {
    }
  }

  lemma LandStays(w: World, ticket: nat, fails: bool, n: nat)
    requires Inv(w) && ticket in w.flights && n in w.calls && w.calls[n].Answered?
    ensures Settles(w, Landed(w, ticket, fails), n)
  {
    hide LogInv, FlightsFit, PhasesFit, OneEach, Truthful, Landed, OwnsEvent;
    LandingBooks(w, ticket, fails);
    CallFlies(w, ticket);
    BookedFlight(w, Landed(w, ticket, fails), ticket, n);
    forall i: nat ensures OwnsEvent(Landed(w, ticket, fails), n, i) <==>
        OwnsEvent(w, n, i) || (Landed(w, ticket, fails).origins != w.origins && n == w.flights[ticket].call && i == |w.origins|) {
      BookedOwns(w, Landed(w, ticket, fails), ticket, n, i);
    }
  }

  // The answer stands, and a call with nothing in flight has no new event and nothing in flight.
  ghost predicate Settles(w: World, x: World, n: nat)
    requires n in w.calls
  {
    && n in x.calls && x.calls[n] == w.calls[n]
    && (!HasFlight(w, n) ==> !HasFlight(x, n) && forall i: nat :: OwnsEvent(x, n, i) ==> OwnsEvent(w, n, i))
  }

  lemma StepSettles(w: World, a: Action, n: nat)
    requires Inv(w) && Enabled(w, a) && n in w.calls && w.calls[n].Answered?
    ensures Settles(w, Apply(w, a), n)
  {
    hide Choose, Owned, EventAt, Decide, LogInv, FlightsFit, PhasesFit, Truthful, NamesOf, HasId, Landed, Submitted;
    if a.Submit? {
      SubmitStays(w, a.call, a.ticket, a.minted, a.stamp, n);
    } else if a.Land? {
      LandStays(w, a.ticket, a.fails, n);
    }
  }

  // Answers are final: whatever happens afterwards, an answered call keeps its answer, and unless it gave up waiting for an
  // event already on its way, nothing more of it is ever appended.
  lemma {:induction false} AnswersAreFinal(w: World, more: seq<Action>, x: World, n: nat)
    requires Inv(w) && Reaches(w, more, x) && n in w.calls && w.calls[n].Answered?
    ensures Inv(x) && Settles(w, x, n)
  {
    hide Inv, Apply, Enabled, Reaches, HasFlight, OwnsEvent;
    if more == [] {
      Unmoved(w, more, x);
    } else {
      var k := |more| - 1;
      var m := LastStep(w, more, x);
      AnswersAreFinal(w, more[..k], m, n);
      StepSettles(m, more[k], n);
      StepKeepsInv(m, more[k]);
    }
  }

  // A renewal, release or transfer made under this token.
  predicate Presents(c: Command, token: Text) {
    c.Leasing? && !c.operation.Acquire? && c.operation.fence.token == token
  }

  // A superseded fence is useless for ever: whatever a renewal, release or transfer presenting it reads from here on,
  // it decides to append nothing, in every reachable extension of the log.
  lemma FencedOutForever(w0: World, actions: seq<Action>, w: World, n: nat, token: Text, c: L.Command, m: L.Minted)
    requires Initial(w0) && Reaches(w0, actions, w) && n <= |w.ep.log| && L.Superseded(w.ep.log[..n], token)
    requires !c.Acquire? && c.fence.token == token
    ensures !Choose(w.ep.log, Leasing(c), m).Append?
    ensures |w.origins| == |w.ep.log|
    ensures forall i :: n <= i < |w.ep.log| && w.origins[i].Some? ==> !Presents(w.origins[i].value.command, token)
  {
    hide L.Legal, L.Superseded, L.Fold, L.DecideLease, Owned, LogInv, PhasesFit, FlightsFit, OneEach, Truthful;
    Linearizable(w0, actions, w, Run);
    var log := w.ep.log;
    L.LegalPrefix(log, n);
    L.SupersededForever(log, n, token);
    L.SupersededIsRefused(log, c, m);
    forall i | n <= i < |log| && w.origins[i].Some? ensures !Presents(w.origins[i].value.command, token) {
      var o := w.origins[i].value;
      assert Decided(log, i, o);
      if Presents(o.command, token) {
        L.LegalPrefix(log, i);
        assert log[..i][..n] == log[..n];
        L.SupersededForever(log[..i], n, token);
        L.SupersededIsRefused(log[..i], o.command.operation, o.minted);
      }
    }
  }

  // In every reachable state, a resource has at most one unreleased lease, and the index by resource points to it.
  lemma OneWriterPerResource(w0: World, actions: seq<Action>, w: World, i: Text, j: Text)
    requires Initial(w0) && Reaches(w0, actions, w)
    requires var p := L.Fold(w.ep.log);
      && i in p.byId && i !in p.released && j in p.byId && j !in p.released && p.byId[i].resource == p.byId[j].resource
    ensures i == j
    ensures var p := L.Fold(w.ep.log); p.byId[i].resource in p.byResource && p.byResource[p.byId[i].resource] == i
  {
    hide L.Fold, L.Legal;
    Linearizable(w0, actions, w, Run);
    L.OneHolder(w.ep.log, i, j);
  }

  // In every reachable state, every takeover waited for the deadline as renewals had moved it, and every lease in force
  // still has the time to live it was granted.
  lemma TakeoversWait(w0: World, actions: seq<Action>, w: World, i: nat, id: Text)
    requires Initial(w0) && Reaches(w0, actions, w)
    ensures i < |w.ep.log| && w.ep.log[i].fields.payload.LeaseReclaimed? ==>
      var p := w.ep.log[i].fields.payload; 0 < L.DeadlineIn(w.ep.log[..i], p.supersededId) <= p.lease.acquiredAt
    ensures id in L.Fold(w.ep.log).byId && id !in L.Fold(w.ep.log).released ==>
      L.GrantIn(w.ep.log, id).Some? && L.Ttl(L.Fold(w.ep.log).byId[id]) == L.Ttl(L.GrantIn(w.ep.log, id).value)
  {
    hide L.Fold, L.Legal, L.DeadlineIn, L.GrantIn, L.Run;
    Linearizable(w0, actions, w, Run);
    if i < |w.ep.log| && w.ep.log[i].fields.payload.LeaseReclaimed? {
      L.NoEarlyTakeover(w.ep.log, i);
    }
    if id in L.Fold(w.ep.log).byId && id !in L.Fold(w.ep.log).released {
      L.FoldRefines(w.ep.log);
      L.LiveIsWritten(w.ep.log, id);
    }
  }

  // In every reachable state, a takeover's clock is past the holder's last renewal by at least the time to live that the
  // holder's own acquiring call asked for.
  lemma TakeoversWaitAsLongAsAsked(w0: World, actions: seq<Action>, w: World, i: nat) returns (j: nat)
    requires Initial(w0) && Reaches(w0, actions, w) && i < |w.ep.log| && w.ep.log[i].fields.payload.LeaseReclaimed?
    ensures |w.origins| == |w.ep.log| && j < i && w.origins[j].Some? && Acquires(w.origins[j].value.command)
    ensures var p, asked := w.ep.log[i].fields.payload, w.origins[j].value.command.operation;
      && Grants(w.ep.log[j].fields.payload, p.supersededId, asked.holder) && asked.resource == p.lease.resource
      && asked.ttl > 0 && p.lease.acquiredAt >= L.RenewedIn(w.ep.log[..i], p.supersededId) + asked.ttl
  {
    hide L.Fold, L.Legal, L.RenewedIn, L.GrantIn, L.Run, Reaches, L.DecideLease, Initial;
    Linearizable(w0, actions, w, Run);
    var log, id := w.ep.log, w.ep.log[i].fields.payload.supersededId;
    L.TakeoverWaitsTtl(log, i);
    j := L.GrantedAt(log[..i], id);
    assert log[..i][j] == log[j];
    assert Owned(log[j].fields.payload);
    assert Decided(log, j, w.origins[j].value);
    GrantWasAsked(log[..j], w.origins[j].value, log[j].fields.payload);
    TakesSameResource(log, i, j);
  }

  predicate Acquires(c: Command) {
    c.Leasing? && c.operation.Acquire?
  }

  predicate Grants(p: Payload, id: Text, holder: Text) {
    (p.LeaseAcquired? || p.LeaseReclaimed?) && p.lease.id == id && p.lease.holder == holder
  }

  lemma GrantWasAsked(log: seq<Event>, o: Origin, p: Payload)
    requires Choose(log, o.command, o.minted) == Append(p) && o.minted.now > 0 && (o.command.Noting? ==> !Owned(o.command.payload))
    requires p.LeaseAcquired? || p.LeaseReclaimed?
    ensures Acquires(o.command)
    ensures var asked := o.command.operation; p.lease.resource == asked.resource && p.lease.holder == asked.holder && L.Ttl(p.lease) == asked.ttl
  {
    hide L.Fold, C.FoldRecords, C.DecideTransition;
    if o.command.Leasing? && o.command.operation.Acquire? {
      L.GrantIsAsked(L.Fold(log), o.command.operation.resource, o.command.operation.holder, o.command.operation.ttl, o.minted);
    }
    if o.command.Moving? {
      MoveKind(C.FoldRecords(log, o.command.subject), o.command.subject, o.command.subjectId, o.command.target, o.command.disposition);
    }
  }

  // The lease taken over is on the resource the taker asked for.
  lemma TakesSameResource(log: seq<Event>, i: nat, j: nat)
    requires L.Legal(log) && j < i < |log| && log[i].fields.payload.LeaseReclaimed?
    requires L.GrantIn(log[..i], log[i].fields.payload.supersededId) == Some(GrantOf(log[j].fields.payload))
    ensures GrantOf(log[j].fields.payload).resource == log[i].fields.payload.lease.resource
  {
    hide L.Fold, L.Legal, L.GrantIn, L.Run, L.MayFollow;
    L.LegalAt(log, i);
    L.ReclaimSameResource(L.Run(log[..i]), log[i].fields.payload);
    L.LiveKeepsResource(log[..i], log[i].fields.payload.supersededId);
  }

  function GrantOf(p: Payload): Lease {
    if p.LeaseAcquired? || p.LeaseReclaimed? then p.lease else L.At(L.EMPTY, [])
  }

  // In every reachable state, each effort or run has walked the lifecycle table, each transition event states the status
  // right before it, and a disposition is recorded exactly for terminal and archived subjects.
  lemma LifecyclesArePaths(w0: World, actions: seq<Action>, w: World, subject: Subject, id: Text, i: nat)
    requires Initial(w0) && Reaches(w0, actions, w) && id in C.FoldRecords(w.ep.log, subject)
    ensures var path, r := C.Path(w.ep.log, subject, id), C.FoldRecords(w.ep.log, subject)[id];
      && path != [] && path[0] == C.InitialStatus(subject) && path[|path| - 1] == r.status && C.OnTable(path) && C.Settled(r)
    ensures i < |w.ep.log| && w.ep.log[i].fields.payload.Transitioned? && w.ep.log[i].fields.payload.subject == subject ==>
      var p := w.ep.log[i].fields.payload;
      var before := C.FoldRecords(w.ep.log[..i], subject);
      p.subjectId in before && before[p.subjectId].status == p.source
  {
    hide C.FoldRecords, C.Legal, C.Path, C.OnTable, C.Settled, C.ValidateTransition, L.Legal, Reaches, Decided, Owned;
    Linearizable(w0, actions, w, subject);
    C.LogIsPath(w.ep.log, subject, id);
    if i < |w.ep.log| {
      C.LegalAt(w.ep.log, subject, i);
    }
  }
}
