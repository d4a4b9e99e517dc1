/** Leases: the fold every decision is made from, the decisions, and the sequential automaton they must follow. */
module Leases {
  import opened Events
  import opened Chain

  // -------------------------------------------------------------- the fold

  datatype Projection = Projection(byId: map<Text, Lease>, released: set<Text>, byResource: map<Text, Text>)

  const EMPTY := Projection(map[], {}, map[])

  function Drop(p: Projection, id: Text): Projection {
    if id !in p.byId then p
    else
      var resource := p.byId[id].resource;
      p.(released := p.released + {id},
         byResource := if resource in p.byResource && p.byResource[resource] == id then p.byResource - {resource} else p.byResource)
  }

  function Grant(p: Projection, lease: Lease): Projection {
    Projection(p.byId[lease.id := lease], p.released - {lease.id}, p.byResource[lease.resource := lease.id])
  }

  function Update(p: Projection, id: Text, lease: Lease): Projection {
    if id in p.byId && id !in p.released then p.(byId := p.byId[id := lease]) else p
  }

  function At(p: Projection, id: Text): Lease {
    if id in p.byId then p.byId[id] else Lease([], [], [], LeaseFence(0, []), 0, 0, 0)
  }

  // One event of foldLeaseProjection; other kinds are ignored.
  function FoldOne(p: Projection, payload: Payload): Projection {
    match payload
    case LeaseAcquired(lease) => Grant(p, lease)
    case LeaseRenewed(id, at, expiresAt) => Update(p, id, At(p, id).(renewedAt := at, expiresAt := expiresAt))
    case LeaseReleased(id, at) => Drop(p, id)
    case LeaseReclaimed(lease, superseded, _, _) => Grant(Drop(p, superseded), lease)
    case LeaseTransferred(id, _, to, fence, at, expiresAt) =>
      Update(p, id, At(p, id).(holder := to, fence := fence, renewedAt := at, expiresAt := expiresAt))
    case _ => p
  }

  function Fold(log: seq<Event>): Projection {
    if log == [] then EMPTY else FoldOne(Fold(Init(log)), Last(log).fields.payload)
  }

  // The fold as the code runs it: three maps updated event by event.
  method FoldLeaseProjection(events: seq<Event>) returns (byId: map<Text, Lease>, released: set<Text>, byResource: map<Text, Text>)
    ensures Projection(byId, released, byResource) == Fold(events)
  {
    byId, released, byResource := map[], {}, map[];
    for i := 0 to |events|
      invariant Projection(byId, released, byResource) == Fold(events[..i])
    {
      assert Init(events[..i + 1]) == events[..i] && Last(events[..i + 1]) == events[i];
      match events[i].fields.payload {
        case LeaseAcquired(lease) =>
          byId := byId[lease.id := lease];
          released := released - {lease.id};
          byResource := byResource[lease.resource := lease.id];
        case LeaseRenewed(id, at, expiresAt) =>
          if id in byId && id !in released {
            byId := byId[id := byId[id].(renewedAt := at, expiresAt := expiresAt)];
          }
        case LeaseReleased(id, at) =>
          if id in byId {
            released := released + {id};
            if byId[id].resource in byResource && byResource[byId[id].resource] == id {
              byResource := byResource - {byId[id].resource};
            }
          }
        case LeaseReclaimed(lease, superseded, _, _) =>
          if superseded in byId {
            released := released + {superseded};
            if byId[superseded].resource in byResource && byResource[byId[superseded].resource] == superseded {
              byResource := byResource - {byId[superseded].resource};
            }
          }
          byId := byId[lease.id := lease];
          released := released - {lease.id};
          byResource := byResource[lease.resource := lease.id];
        case LeaseTransferred(id, _, to, fence, at, expiresAt) =>
          if id in byId && id !in released {
            byId := byId[id := byId[id].(holder := to, fence := fence, renewedAt := at, expiresAt := expiresAt)];
          }
        case _ =>
      }
    }
    assert events[..|events|] == events;
  }

  // -------------------------------------------------------------- decisions

  datatype Command =
    | Acquire(resource: Text, holder: Text, ttl: int)
    | Renew(id: Text, fence: LeaseFence)
    | Release(id: Text, fence: LeaseFence)
    | Transfer(id: Text, fence: LeaseFence, to: Text)

  // Emit: append this payload and, if it commits, answer with the lease. Settled: nothing to do, and no error.
  datatype Verdict = Emit(payload: Payload, lease: Lease) | Settled | Deny(error: Error)

  // What a call brings to one attempt besides its arguments: a clock reading and freshly minted names.
  datatype Minted = Minted(now: Instant, leaseId: Text, token: Text, epoch: int)

  predicate LeaseExpired(lease: Lease, now: Instant) {
    lease.expiresAt != 0 && !(now < lease.expiresAt)
  }

  function Deadline(now: Instant, ttl: int): Instant {
    if ttl > 0 then now + ttl else 0
  }

  // The same time to live, counted from now.
  function Extend(lease: Lease, now: Instant): Instant {
    if lease.expiresAt != 0 then now + (lease.expiresAt - lease.renewedAt) else 0
  }

  function DecideAcquire(p: Projection, resource: Text, holder: Text, ttl: int, m: Minted): Verdict {
    if Blank(resource) || Blank(holder) || ttl < 0 then Deny(InvalidArgument)
    else
      var lease := Lease(m.leaseId, resource, holder, LeaseFence(m.epoch, m.token), m.now, m.now, Deadline(m.now, ttl));
      if resource in p.byResource then
        var existing := At(p, p.byResource[resource]);
        if !LeaseExpired(existing, m.now) then Deny(Conflict)
        else Emit(LeaseReclaimed(lease, existing.id, existing.holder, existing.expiresAt), lease)
      else Emit(LeaseAcquired(lease), lease)
  }

  // Whether a lease is there, unreleased, and held under the presented fence.
  function FenceCheck(p: Projection, id: Text, fence: LeaseFence): Option<Error> {
    if id !in p.byId then Some(NotFound)
    else if id in p.released then Some(LeaseFenced)
    else if p.byId[id].fence != fence then Some(LeaseFenced)
    else None
  }

  function DecideRenew(p: Projection, id: Text, fence: LeaseFence, m: Minted): Verdict {
    match FenceCheck(p, id, fence)
    case Some(error) => Deny(error)
    case None =>
      var lease := At(p, id);
      Emit(LeaseRenewed(id, m.now, Extend(lease, m.now)), lease.(renewedAt := m.now, expiresAt := Extend(lease, m.now)))
  }

  function DecideRelease(p: Projection, id: Text, fence: LeaseFence, m: Minted): Verdict {
    if id in p.byId && id in p.released then Settled
    else
      match FenceCheck(p, id, fence)
      case Some(error) => Deny(error)
      case None => Emit(LeaseReleased(id, m.now), At(p, id))
  }

  function DecideTransfer(p: Projection, id: Text, fence: LeaseFence, to: Text, m: Minted): Verdict {
    if Blank(to) then Deny(InvalidArgument)
    else
      match FenceCheck(p, id, fence)
      case Some(error) => Deny(error)
      case None =>
        var lease, renewed := At(p, id), LeaseFence(m.epoch, m.token);
        Emit(LeaseTransferred(id, lease.holder, to, renewed, m.now, Extend(lease, m.now)),
             lease.(holder := to, fence := renewed, renewedAt := m.now, expiresAt := Extend(lease, m.now)))
  }

  function DecideLease(p: Projection, c: Command, m: Minted): Verdict {
    match c
    case Acquire(resource, holder, ttl) => DecideAcquire(p, resource, holder, ttl, m)
    case Renew(id, fence) => DecideRenew(p, id, fence, m)
    case Release(id, fence) => DecideRelease(p, id, fence, m)
    case Transfer(id, fence, to) => DecideTransfer(p, id, fence, to, m)
  }

  // --------------------------------------------------------- the automaton

  // The leases in force, and every lease id and fence token ever granted.
  datatype Automaton = Automaton(live: map<Text, Lease>, ids: set<Text>, tokens: set<Text>)

  const NOTHING := Automaton(map[], {}, {})

  predicate FreshGrant(a: Automaton, lease: Lease) {
    && lease.id !in a.ids && lease.fence.token !in a.tokens
    && 0 < lease.acquiredAt == lease.renewedAt && (lease.expiresAt == 0 || lease.acquiredAt < lease.expiresAt)
  }

  predicate MayFollow(a: Automaton, payload: Payload) {
    match payload
    case LeaseAcquired(lease) => FreshGrant(a, lease) && forall id :: id in a.live ==> a.live[id].resource != lease.resource
    case LeaseReclaimed(lease, superseded, holder, expiredAt) =>
      && FreshGrant(a, lease) && superseded in a.live
      && a.live[superseded].resource == lease.resource && a.live[superseded].holder == holder
      && a.live[superseded].expiresAt == expiredAt && 0 < expiredAt <= lease.acquiredAt
    case LeaseRenewed(id, at, expiresAt) => id in a.live && at > 0 && expiresAt == Extend(a.live[id], at)
    case LeaseReleased(id, at) => id in a.live
    case LeaseTransferred(id, holder, to, fence, at, expiresAt) =>
      && id in a.live && a.live[id].holder == holder && fence.token !in a.tokens
      && at > 0 && expiresAt == Extend(a.live[id], at)
    case _ => true
  }

  function Next(a: Automaton, payload: Payload): Automaton {
    if !MayFollow(a, payload) then a
    else
      match payload
      case LeaseAcquired(lease) => Automaton(a.live[lease.id := lease], a.ids + {lease.id}, a.tokens + {lease.fence.token})
      case LeaseReclaimed(lease, superseded, _, _) =>
        Automaton((a.live - {superseded})[lease.id := lease], a.ids + {lease.id}, a.tokens + {lease.fence.token})
      case LeaseRenewed(id, at, expiresAt) => a.(live := a.live[id := a.live[id].(renewedAt := at, expiresAt := expiresAt)])
      case LeaseReleased(id, at) => a.(live := a.live - {id})
      case LeaseTransferred(id, _, to, fence, at, expiresAt) =>
        a.(live := a.live[id := a.live[id].(holder := to, fence := fence, renewedAt := at, expiresAt := expiresAt)],
           tokens := a.tokens + {fence.token})
      case _ => a
  }

  predicate Legal(log: seq<Event>) {
    log == [] || (Legal(Init(log)) && MayFollow(Run(Init(log)), Last(log).fields.payload))
  }

  function Run(log: seq<Event>): Automaton {
    if log == [] then NOTHING else Next(Run(Init(log)), Last(log).fields.payload)
  }

  // One resource, one lease; one lease, one token; everything in force was granted once; deadlines lie ahead of renewals.
  predicate Orderly(a: Automaton) {
    && (forall id :: id in a.live ==> a.live[id].id == id && id in a.ids && a.live[id].fence.token in a.tokens)
    && (forall i, j :: i in a.live && j in a.live && i != j ==>
         a.live[i].resource != a.live[j].resource && a.live[i].fence.token != a.live[j].fence.token)
    && (forall id :: id in a.live ==> 0 < a.live[id].renewedAt && (a.live[id].expiresAt == 0 || a.live[id].renewedAt < a.live[id].expiresAt))
  }

  lemma NextOrderly(a: Automaton, payload: Payload)
    requires Orderly(a) && MayFollow(a, payload)
    ensures Orderly(Next(a, payload))
  {
    match payload
    case LeaseAcquired(lease) => GrantOrderly(a, lease);
    case LeaseReclaimed(lease, superseded, _, _) => GrantOrderly(a.(live := a.live - {superseded}), lease);
    case LeaseRenewed(_, _, _) =>
    case LeaseReleased(_, _) =>
    case LeaseTransferred(_, _, _, _, _, _) =>
    case _ =>
  }

  lemma GrantOrderly(a: Automaton, lease: Lease)
    requires Orderly(a) && FreshGrant(a, lease) && forall id :: id in a.live ==> a.live[id].resource != lease.resource
    ensures Orderly(Automaton(a.live[lease.id := lease], a.ids + {lease.id}, a.tokens + {lease.fence.token}))
  {
  }

  lemma {:induction false} RunOrderly(log: seq<Event>)
    requires Legal(log)
    ensures Orderly(Run(log))
  {
    if log != [] {
      RunOrderly(Init(log));
      NextOrderly(Run(Init(log)), Last(log).fields.payload);
    }
  }

  // ------------------------------------------------- the fold is the automaton

  predicate Same(p: Projection, a: Automaton) {
    && p.byId.Keys == a.ids && p.released <= a.ids && a.live.Keys == a.ids - p.released
    && (forall id :: id in a.live ==> p.byId[id] == a.live[id])
    && (forall id :: id in a.live ==> a.live[id].resource in p.byResource && p.byResource[a.live[id].resource] == id)
    && (forall r :: r in p.byResource ==> p.byResource[r] in a.live && a.live[p.byResource[r]].resource == r)
  }

  lemma SameGrant(p: Projection, a: Automaton, lease: Lease)
    requires Same(p, a) && Orderly(a) && MayFollow(a, LeaseAcquired(lease))
    ensures Same(Grant(p, lease), Next(a, LeaseAcquired(lease)))
  {
  }

  lemma SameUpdate(p: Projection, a: Automaton, id: Text, lease: Lease)
    requires Same(p, a) && id in a.live && lease.resource == a.live[id].resource
    ensures Same(Update(p, id, lease), a.(live := a.live[id := lease]))
    ensures At(p, id) == a.live[id]
  {
  }

  lemma SameDrop(p: Projection, a: Automaton, id: Text)
    requires Same(p, a) && Orderly(a) && id in a.live
    ensures Same(Drop(p, id), a.(live := a.live - {id}))
    ensures Orderly(a.(live := a.live - {id}))
  {
  }

  lemma SameStep(p: Projection, a: Automaton, payload: Payload)
    requires Same(p, a) && Orderly(a) && MayFollow(a, payload)
    ensures Same(FoldOne(p, payload), Next(a, payload))
  {
    hide Same, Orderly, Update, Drop, Grant, At;
    match payload
    case LeaseAcquired(lease) => SameGrant(p, a, lease);
    case LeaseReclaimed(lease, superseded, holder, expiredAt) =>
      SameDrop(p, a, superseded);
      SameReclaim(p, a, lease, superseded);
    case LeaseRenewed(id, at, expiresAt) => SameUpdate(p, a, id, a.live[id].(renewedAt := at, expiresAt := expiresAt));
    case LeaseReleased(id, at) => SameDrop(p, a, id);
    case LeaseTransferred(id, _, to, fence, at, expiresAt) =>
      SameTransfer(p, a, id, a.live[id].(holder := to, fence := fence, renewedAt := at, expiresAt := expiresAt), fence.token);
    case _ =>
  }

  lemma SameTransfer(p: Projection, a: Automaton, id: Text, lease: Lease, token: Text)
    requires Same(p, a) && id in a.live && lease.resource == a.live[id].resource
    ensures Same(Update(p, id, lease), a.(live := a.live[id := lease], tokens := a.tokens + {token}))
    ensures At(p, id) == a.live[id]
  {
    SameUpdate(p, a, id, lease);
  }

  lemma SameReclaim(p: Projection, a: Automaton, lease: Lease, superseded: Text)
    requires Orderly(a) && superseded in a.live && a.live[superseded].resource == lease.resource && FreshGrant(a, lease)
    requires Same(Drop(p, superseded), a.(live := a.live - {superseded})) && Orderly(a.(live := a.live - {superseded}))
    ensures Same(Grant(Drop(p, superseded), lease),
                 Automaton((a.live - {superseded})[lease.id := lease], a.ids + {lease.id}, a.tokens + {lease.fence.token}))
  {
    var b := a.(live := a.live - {superseded});
    assert MayFollow(b, LeaseAcquired(lease));
    SameGrant(Drop(p, superseded), b, lease);
  }

  // The projection folded from a legal log is the automaton's state, resource index included.
  lemma {:induction false} FoldRefines(log: seq<Event>)
    requires Legal(log)
    ensures Same(Fold(log), Run(log)) && Orderly(Run(log))
  {
    hide Same, Orderly, MayFollow, FoldOne, Next;
    if log == [] {
      EmptySame();
    } else {
      FoldRefines(Init(log));
      SameStep(Fold(Init(log)), Run(Init(log)), Last(log).fields.payload);
      NextOrderly(Run(Init(log)), Last(log).fields.payload);
    }
  }

  lemma EmptySame()
    ensures Same(EMPTY, NOTHING) && Orderly(NOTHING)
  {
  }

  // --------------------------------------------------- decisions are legal

  // The answer is what the next reader will find: the lease in force, or, after a release, no longer in force.
  predicate InForce(p: Projection, lease: Lease, c: Command) {
    && lease.id in p.byId && p.byId[lease.id] == lease
    && (lease.id in p.released <==> c.Release?)
    && (!c.Release? ==> lease.resource in p.byResource && p.byResource[lease.resource] == lease.id)
  }

  predicate Unused(a: Automaton, m: Minted) {
    m.leaseId !in a.ids && m.token !in a.tokens && m.now > 0
  }

  // Whatever is decided from a legal log may follow it.
  lemma DecisionIsLegal(log: seq<Event>, c: Command, m: Minted)
    requires Legal(log) && Unused(Run(log), m) && DecideLease(Fold(log), c, m).Emit?
    ensures MayFollow(Run(log), DecideLease(Fold(log), c, m).payload)
    ensures var lease := DecideLease(Fold(log), c, m).lease;
      InForce(FoldOne(Fold(log), DecideLease(Fold(log), c, m).payload), lease, c)
  {
    FoldRefines(log);
    hide Fold, Legal, Run;
    match c
    case Acquire(resource, holder, ttl) => AcquireIsLegal(Fold(log), Run(log), resource, holder, ttl, m);
    case Renew(id, fence) =>
    case Release(id, fence) =>
    case Transfer(id, fence, to) =>
  }

  lemma AcquireIsLegal(p: Projection, a: Automaton, resource: Text, holder: Text, ttl: int, m: Minted)
    requires Same(p, a) && Orderly(a) && Unused(a, m) && DecideAcquire(p, resource, holder, ttl, m).Emit?
    ensures MayFollow(a, DecideAcquire(p, resource, holder, ttl, m).payload)
    ensures var v := DecideAcquire(p, resource, holder, ttl, m); InForce(FoldOne(p, v.payload), v.lease, Acquire(resource, holder, ttl))
  {
  }

  // ----------------------------------------------------------- main results

  // However the log came about, as long as it is legal, a resource has at most one unreleased lease.
  lemma OneHolder(log: seq<Event>, i: Text, j: Text)
    requires Legal(log)
    requires i in Fold(log).byId && i !in Fold(log).released && j in Fold(log).byId && j !in Fold(log).released
    requires Fold(log).byId[i].resource == Fold(log).byId[j].resource
    ensures i == j
    ensures Fold(log).byId[i].resource in Fold(log).byResource && Fold(log).byResource[Fold(log).byId[i].resource] == i
  {
    FoldRefines(log);
  }

  // A token that was granted once and is not in force.
  predicate Superseded(log: seq<Event>, token: Text) {
    token in Run(log).tokens && forall id :: id in Run(log).live ==> Run(log).live[id].fence.token != token
  }

  lemma StepKeepsSuperseded(a: Automaton, payload: Payload, token: Text)
    requires MayFollow(a, payload) && token in a.tokens && forall id :: id in a.live ==> a.live[id].fence.token != token
    ensures token in Next(a, payload).tokens && forall id :: id in Next(a, payload).live ==> Next(a, payload).live[id].fence.token != token
  {
  }

  // Fencing out is permanent: in every legal extension of the log, the token stays superseded.
  lemma {:induction false} SupersededForever(log: seq<Event>, n: nat, token: Text)
    requires Legal(log) && n <= |log| && Legal(log[..n]) && Superseded(log[..n], token)
    ensures Superseded(log, token)
  {
    if n < |log| {
      assert Init(log)[..n] == log[..n];
      SupersededForever(Init(log), n, token);
      StepKeepsSuperseded(Run(Init(log)), Last(log).fields.payload, token);
    } else {
      assert log[..n] == log;
    }
  }

  lemma {:induction false} LegalPrefix(log: seq<Event>, n: nat)
    requires Legal(log) && n <= |log|
    ensures Legal(log[..n])
  {
    if n < |log| {
      LegalPrefix(Init(log), n);
      assert Init(log)[..n] == log[..n];
    } else {
      assert log[..n] == log;
    }
  }

  // No call presenting a superseded fence is ever told to append anything.
  lemma SupersededIsRefused(log: seq<Event>, c: Command, m: Minted)
    requires Legal(log) && !c.Acquire? && Superseded(log, c.fence.token)
    ensures !DecideLease(Fold(log), c, m).Emit?
  {
    FoldRefines(log);
  }

  // A release, a reclaim and a transfer each supersede the token that was in force.
  lemma EndSupersedes(log: seq<Event>, e: Event, id: Text)
    requires Legal(log + [e]) && Legal(log) && id in Run(log).live
    requires e.fields.payload.LeaseReleased? || e.fields.payload.LeaseTransferred? ==> e.fields.payload.leaseId == id
    requires e.fields.payload.LeaseReclaimed? ==> e.fields.payload.supersededId == id
    requires e.fields.payload.LeaseReleased? || e.fields.payload.LeaseTransferred? || e.fields.payload.LeaseReclaimed?
    ensures Superseded(log + [e], Run(log).live[id].fence.token)
  {
    assert Init(log + [e]) == log;
    RunOrderly(log);
  }

  // ------------------------------------------------------ deadlines and TTLs

  // The deadline the log last wrote for a lease, by its grant, a renewal or a transfer.
  function DeadlineIn(log: seq<Event>, id: Text): Instant {
    if log == [] then 0
    else
      match Last(log).fields.payload
      case LeaseAcquired(lease) => if lease.id == id then lease.expiresAt else DeadlineIn(Init(log), id)
      case LeaseReclaimed(lease, _, _, _) => if lease.id == id then lease.expiresAt else DeadlineIn(Init(log), id)
      case LeaseRenewed(i, _, expiresAt) => if i == id then expiresAt else DeadlineIn(Init(log), id)
      case LeaseTransferred(i, _, _, _, _, expiresAt) => if i == id then expiresAt else DeadlineIn(Init(log), id)
      case _ => DeadlineIn(Init(log), id)
  }

  // The lease as it was granted.
  function GrantIn(log: seq<Event>, id: Text): Option<Lease> {
    if log == [] then None
    else
      match Last(log).fields.payload
      case LeaseAcquired(lease) => if lease.id == id then Some(lease) else GrantIn(Init(log), id)
      case LeaseReclaimed(lease, _, _, _) => if lease.id == id then Some(lease) else GrantIn(Init(log), id)
      case _ => GrantIn(Init(log), id)
  }

  // 0 stands for a lease without a time to live.
  function Ttl(lease: Lease): int {
    if lease.expiresAt == 0 then 0 else lease.expiresAt - lease.renewedAt
  }

  lemma {:induction false} LiveIsWritten(log: seq<Event>, id: Text)
    requires Legal(log) && id in Run(log).live
    ensures Run(log).live[id].expiresAt == DeadlineIn(log, id)
    ensures GrantIn(log, id).Some? && Ttl(Run(log).live[id]) == Ttl(GrantIn(log, id).value)
  {
    if log != [] {
      var a, payload := Run(Init(log)), Last(log).fields.payload;
      RunOrderly(Init(log));
      if id in a.live {
        LiveIsWritten(Init(log), id);
        StepKeepsTtl(a, payload, id);
      }
    }
  }

  // Renewals and transfers, in any number, keep the granted time to live.
  lemma StepKeepsTtl(a: Automaton, payload: Payload, id: Text)
    requires Orderly(a) && MayFollow(a, payload) && id in a.live && id in Next(a, payload).live
    ensures Ttl(Next(a, payload).live[id]) == Ttl(a.live[id])
  {
  }

  lemma LegalAt(log: seq<Event>, i: nat)
    requires Legal(log) && i < |log|
    ensures Legal(log[..i]) && MayFollow(Run(log[..i]), log[i].fields.payload)
  {
    LegalPrefix(log, i + 1);
    assert Init(log[..i + 1]) == log[..i] && Last(log[..i + 1]) == log[i];
  }

  // No early takeover: whoever reclaims read a clock at or past the holder's deadline, as every renewal before it moved it.
  lemma NoEarlyTakeover(log: seq<Event>, i: nat)
    requires Legal(log) && i < |log| && log[i].fields.payload.LeaseReclaimed?
    ensures var p := log[i].fields.payload;
      && 0 < DeadlineIn(log[..i], p.supersededId) <= p.lease.acquiredAt
      && p.supersededExpiredAt == DeadlineIn(log[..i], p.supersededId)
      && p.supersededId in Run(log[..i]).live && Superseded(log[..i + 1], Run(log[..i]).live[p.supersededId].fence.token)
  {
    hide Run, Legal, MayFollow, DeadlineIn, Superseded, GrantIn;
    LegalAt(log, i);
    ReclaimRule(Run(log[..i]), log[i].fields.payload);
    LiveIsWritten(log[..i], log[i].fields.payload.supersededId);
    LegalPrefix(log, i + 1);
    assert log[..i + 1] == log[..i] + [log[i]];
    EndSupersedes(log[..i], log[i], log[i].fields.payload.supersededId);
  }

  lemma ReclaimRule(a: Automaton, p: Payload)
    requires p.LeaseReclaimed? && MayFollow(a, p)
    ensures p.supersededId in a.live && a.live[p.supersededId].expiresAt == p.supersededExpiredAt
    ensures 0 < p.supersededExpiredAt <= p.lease.acquiredAt
  {
  }

  // The exact taking rule: a free resource is granted, a held one is taken over exactly when its deadline has passed.
  lemma AcquireExact(log: seq<Event>, resource: Text, holder: Text, ttl: int, m: Minted)
    requires Legal(log)
    ensures var v, asked := DecideAcquire(Fold(log), resource, holder, ttl, m), !Blank(resource) && !Blank(holder) && ttl >= 0;
      && (v == Deny(InvalidArgument) <==> !asked)
      && (v.Emit? && v.payload.LeaseAcquired? <==> asked && forall id :: id in Run(log).live ==> Run(log).live[id].resource != resource)
      && (v.Emit? && v.payload.LeaseReclaimed? <==>
            asked && exists id :: id in Run(log).live && Run(log).live[id].resource == resource && 0 < DeadlineIn(log, id) <= m.now)
      && (asked ==> (!v.Emit? <==> v == Deny(Conflict)))
      && (v.Emit? && m.now > 0 ==>
            && v.lease.id == m.leaseId && v.lease.resource == resource && v.lease.holder == holder
            && v.lease.acquiredAt == m.now && Ttl(v.lease) == ttl)
  {
    FoldRefines(log);
    hide Fold, Legal, Run, MayFollow, Blank;
    if DecideAcquire(Fold(log), resource, holder, ttl, m).Emit? && m.now > 0 {
      GrantIsAsked(Fold(log), resource, holder, ttl, m);
    }
    var p, a := Fold(log), Run(log);
    if resource in p.byResource {
      var id := p.byResource[resource];
      LiveIsWritten(log, id);
      DeadlinesPositive(log, id);
    }
    forall id | id in a.live ensures a.live[id].expiresAt == DeadlineIn(log, id) {
      LiveIsWritten(log, id);
    }
  }

  lemma DeadlinesPositive(log: seq<Event>, id: Text)
    requires Legal(log) && id in Run(log).live
    ensures Run(log).live[id].expiresAt == 0 || Run(log).live[id].expiresAt > 0
  {
    RunOrderly(log);
  }

  // ------------------------------------------------------ what a call is given

  // A grant is what was asked for: that resource, for that holder, from now on, for that time to live.
  lemma GrantIsAsked(p: Projection, resource: Text, holder: Text, ttl: int, m: Minted)
    requires DecideAcquire(p, resource, holder, ttl, m).Emit? && m.now > 0
    ensures var v := DecideAcquire(p, resource, holder, ttl, m);
      && (v.payload.LeaseAcquired? || v.payload.LeaseReclaimed?) && v.payload.lease == v.lease
      && v.lease.id == m.leaseId && v.lease.resource == resource && v.lease.holder == holder
      && v.lease.fence == LeaseFence(m.epoch, m.token)
      && v.lease.acquiredAt == v.lease.renewedAt == m.now && ttl >= 0 && Ttl(v.lease) == ttl
  {
  }

  // Presenting a fence: it must be the one the lease is held under now.
  lemma FenceCheckExact(log: seq<Event>, id: Text, fence: LeaseFence)
    requires Legal(log)
    ensures FenceCheck(Fold(log), id, fence).None? <==> id in Run(log).live && Run(log).live[id].fence == fence
    ensures FenceCheck(Fold(log), id, fence).Some? ==> FenceCheck(Fold(log), id, fence) == Some(if id in Run(log).ids then LeaseFenced else NotFound)
    ensures id in Run(log).live ==> id in Fold(log).byId && At(Fold(log), id) == Run(log).live[id] && id !in Fold(log).released
    ensures id in Fold(log).byId <==> id in Run(log).ids
    ensures id in Fold(log).byId && id in Fold(log).released <==> id in Run(log).ids && id !in Run(log).live
  {
    FoldRefines(log);
  }

  lemma SameTtl(lease: Lease, now: Instant)
    requires now > 0 && 0 < lease.renewedAt && (lease.expiresAt == 0 || lease.renewedAt < lease.expiresAt)
    ensures Ttl(lease.(renewedAt := now, expiresAt := Extend(lease, now))) == Ttl(lease)
  {
  }

  lemma LiveIsOrderly(log: seq<Event>, id: Text)
    requires Legal(log) && id in Run(log).live
    ensures Run(log).live[id].id == id && 0 < Run(log).live[id].renewedAt
    ensures Run(log).live[id].expiresAt == 0 || Run(log).live[id].renewedAt < Run(log).live[id].expiresAt
  {
    RunOrderly(log);
  }

  // A renewal succeeds exactly under the fence in force, and counts the granted time to live from now on.
  lemma RenewExact(log: seq<Event>, id: Text, fence: LeaseFence, m: Minted)
    requires Legal(log) && m.now > 0
    ensures var v, live := DecideRenew(Fold(log), id, fence, m), Run(log).live;
      && (v.Emit? <==> id in live && live[id].fence == fence)
      && (!v.Emit? ==> v == Deny(if id in Run(log).ids then LeaseFenced else NotFound))
      && (v.Emit? ==>
            && v.lease == live[id].(renewedAt := m.now, expiresAt := v.lease.expiresAt) && Ttl(v.lease) == Ttl(live[id])
            && Next(Run(log), v.payload).live == live[id := v.lease])
  {
    hide Fold, Run, Legal, Ttl, Extend;
    FenceCheckExact(log, id, fence);
    if id in Run(log).live {
      LiveIsOrderly(log, id);
      SameTtl(Run(log).live[id], m.now);
    }
  }

  // A release succeeds exactly under the fence in force and ends the lease; a lease already ended has nothing to do.
  lemma ReleaseExact(log: seq<Event>, id: Text, fence: LeaseFence, m: Minted)
    requires Legal(log)
    ensures var v, live := DecideRelease(Fold(log), id, fence, m), Run(log).live;
      && (v.Emit? <==> id in live && live[id].fence == fence)
      && (v.Settled? <==> id in Run(log).ids && id !in live)
      && (v.Deny? ==> v == Deny(if id in Run(log).ids then LeaseFenced else NotFound))
      && (v.Emit? ==> v.lease == live[id] && Next(Run(log), v.payload).live == live - {id})
  {
    hide Fold, Run, Legal;
    FenceCheckExact(log, id, fence);
  }

  // A transfer succeeds exactly under the fence in force; the lease goes to the new holder under the new fence, and counts
  // the granted time to live from now on.
  lemma TransferExact(log: seq<Event>, id: Text, fence: LeaseFence, to: Text, m: Minted)
    requires Legal(log) && m.now > 0 && m.token !in Run(log).tokens
    ensures var v, live := DecideTransfer(Fold(log), id, fence, to, m), Run(log).live;
      && (v.Emit? <==> !Blank(to) && id in live && live[id].fence == fence)
      && (!v.Emit? ==> v == Deny(if Blank(to) then InvalidArgument else if id in Run(log).ids then LeaseFenced else NotFound))
      && (v.Emit? ==>
            && v.lease == live[id].(holder := to, fence := LeaseFence(m.epoch, m.token), renewedAt := m.now, expiresAt := v.lease.expiresAt)
            && Ttl(v.lease) == Ttl(live[id]) && Next(Run(log), v.payload).live == live[id := v.lease])
  {
    hide Fold, Run, Legal, Ttl, Extend, Blank;
    FenceCheckExact(log, id, fence);
    if id in Run(log).live {
      var lease := Run(log).live[id];
      LiveIsOrderly(log, id);
      SameTtl(lease.(holder := to, fence := LeaseFence(m.epoch, m.token)), m.now);
      ExtendOnly(lease, lease.(holder := to, fence := LeaseFence(m.epoch, m.token)), m.now);
    }
  }

  lemma ExtendOnly(a: Lease, b: Lease, now: Instant)
    requires b.renewedAt == a.renewedAt && b.expiresAt == a.expiresAt
    ensures Extend(a, now) == Extend(b, now) && Ttl(a) == Ttl(b)
  {
  }

  // When the holder last renewed, by its grant, a renewal or a transfer.
  function RenewedIn(log: seq<Event>, id: Text): Instant {
    if log == [] then 0
    else
      match Last(log).fields.payload
      case LeaseAcquired(lease) => if lease.id == id then lease.renewedAt else RenewedIn(Init(log), id)
      case LeaseReclaimed(lease, _, _, _) => if lease.id == id then lease.renewedAt else RenewedIn(Init(log), id)
      case LeaseRenewed(i, at, _) => if i == id then at else RenewedIn(Init(log), id)
      case LeaseTransferred(i, _, _, _, at, _) => if i == id then at else RenewedIn(Init(log), id)
      case _ => RenewedIn(Init(log), id)
  }

  lemma {:induction false} LiveIsRenewed(log: seq<Event>, id: Text)
    requires Legal(log) && id in Run(log).live
    ensures Run(log).live[id].renewedAt == RenewedIn(log, id)
  {
    if log != [] {
      RunOrderly(Init(log));
      if id in Run(Init(log)).live {
        LiveIsRenewed(Init(log), id);
      }
    }
  }

  lemma ReclaimSameResource(a: Automaton, p: Payload)
    requires p.LeaseReclaimed? && MayFollow(a, p)
    ensures p.supersededId in a.live && a.live[p.supersededId].resource == p.lease.resource
  {
  }

  lemma {:induction false} LiveKeepsResource(log: seq<Event>, id: Text)
    requires Legal(log) && id in Run(log).live
    ensures GrantIn(log, id).Some? && GrantIn(log, id).value.resource == Run(log).live[id].resource
  {
    if log != [] {
      RunOrderly(Init(log));
      if id in Run(Init(log)).live {
        LiveKeepsResource(Init(log), id);
      }
    }
  }

  // Where the lease was granted.
  lemma {:induction false} GrantedAt(log: seq<Event>, id: Text) returns (j: nat)
    requires GrantIn(log, id).Some?
    ensures j < |log| && (log[j].fields.payload.LeaseAcquired? || log[j].fields.payload.LeaseReclaimed?)
    ensures log[j].fields.payload.lease == GrantIn(log, id).value && log[j].fields.payload.lease.id == id
  {
    var p := Last(log).fields.payload;
    if (p.LeaseAcquired? || p.LeaseReclaimed?) && p.lease.id == id {
      j := |log| - 1;
    } else {
      j := GrantedAt(Init(log), id);
    }
  }

  // A takeover's clock is at least the granted time to live past the holder's last renewal.
  lemma TakeoverWaitsTtl(log: seq<Event>, i: nat)
    requires Legal(log) && i < |log| && log[i].fields.payload.LeaseReclaimed?
    ensures var p := log[i].fields.payload;
      && GrantIn(log[..i], p.supersededId).Some? && Ttl(GrantIn(log[..i], p.supersededId).value) > 0
      && p.lease.acquiredAt >= RenewedIn(log[..i], p.supersededId) + Ttl(GrantIn(log[..i], p.supersededId).value)
  {
    hide Run, Legal, MayFollow, GrantIn, RenewedIn;
    var id := log[i].fields.payload.supersededId;
    LegalAt(log, i);
    ReclaimRule(Run(log[..i]), log[i].fields.payload);
    LiveIsWritten(log[..i], id);
    LiveIsRenewed(log[..i], id);
    LiveIsOrderly(log[..i], id);
  }

  // TTL conservation: at every point of a legal log, deadline minus last renewal is what was granted, or neither exists.
  lemma TtlConserved(log: seq<Event>, n: nat, id: Text)
    requires Legal(log) && n <= |log| && id in Fold(log[..n]).byId && id !in Fold(log[..n]).released
    ensures GrantIn(log[..n], id).Some?
    ensures var lease, grant := Fold(log[..n]).byId[id], GrantIn(log[..n], id).value;
      && (lease.expiresAt == 0 <==> grant.expiresAt == 0)
      && (grant.expiresAt != 0 ==> lease.expiresAt - lease.renewedAt == grant.expiresAt - grant.acquiredAt)
  {
    LegalPrefix(log, n);
    FoldRefines(log[..n]);
    LiveIsWritten(log[..n], id);
    GrantsAreFresh(log[..n], id);
  }

  lemma {:induction false} GrantsAreFresh(log: seq<Event>, id: Text)
    requires Legal(log) && GrantIn(log, id).Some?
    ensures var g := GrantIn(log, id).value; 0 < g.acquiredAt == g.renewedAt && (g.expiresAt == 0 || g.acquiredAt < g.expiresAt)
  {
    if GrantIn(Init(log), id).Some? {
      GrantsAreFresh(Init(log), id);
    }
  }
}
