/** Crash-safe delivery of journal commits to a remote: receipts, compare-and-swap pushes, and what survives any stop. */
module GitDeliveries {
  import opened Events
  import opened Chain
  import opened Commits
  import E = Endpoints
  import M = MemoryJournals

  datatype Kind = AppendOperation | IngestOperation

  // The operation id is the kind and the event's checksum.
  datatype OperationId = OperationId(kind: Kind, checksum: Digest)

  // The durable intent, and once the commit is known, the pending delivery.
  datatype Receipt = Receipt(event: Event, base: Head, commit: Head)

  // Two heads, two kinds of receipt files, and the log the working copy holds.
  datatype Repo = Repo(local: Head, remote: Head, intents: map<OperationId, Receipt>, pendings: map<OperationId, Receipt>, log: seq<Event>)

  function Open(r: Repo): set<OperationId> {
    r.intents.Keys + r.pendings.Keys
  }

  // The local branch records exactly the log, every event once.
  ghost predicate Faithful(local: Head, log: seq<Event>) {
    && (forall e :: e in log ==> Holds(local, e))
    && (forall c :: c in History(local) && c.change.Recorded? ==> c.change.event in log)
    && (forall c, d :: c in History(local) && d in History(local) && c.change.Recorded? && c.change == d.change ==> c == d)
  }

  // What the remote has of ours, it has from here.
  predicate Shared(local: Head, remote: Head) {
    forall c :: c in History(remote) && c.change.Recorded? ==> c in History(local)
  }

  // An unfinished operation: its base is on the remote, and the local branch is on the remote too or one own commit ahead of the base.
  predicate Fits(local: Head, remote: Head, x: Receipt) {
    && Reachable(x.base, remote) && Reachable(x.base, local)
    && (Reachable(local, remote) || local == Some(Own(x.base, x.event)))
  }

  predicate Finalized(local: Head, remote: Head, x: Receipt) {
    && x.commit.Some? && Holds(x.commit, x.event) && Reachable(x.base, x.commit) && Reachable(x.commit, local)
    && (Reachable(x.commit, remote) || x.commit == Some(Own(x.base, x.event)))
  }

  ghost predicate Receipts(r: Repo) {
    && (forall p, q :: p in r.intents && q in r.intents ==> p == q)
    && r.pendings.Keys <= r.intents.Keys
    && (r.intents == map[] ==> Reachable(r.local, r.remote))
    && (forall p :: p in r.intents ==> r.intents[p].commit.None? && r.intents[p].event.checksum == p.checksum && Fits(r.local, r.remote, r.intents[p]))
    && (forall p :: p in r.pendings ==> r.pendings[p] == r.intents[p].(commit := r.pendings[p].commit) && Finalized(r.local, r.remote, r.pendings[p]))
  }

  ghost predicate Consistent(r: Repo) {
    Faithful(r.local, r.log) && Shared(r.local, r.remote) && Receipts(r)
  }

  // ------------------------------------------------------------------ steps

  lemma PushedByOthers(r: Repo, h: Head)
    requires Consistent(r) && ForeignPush(r.remote, h)
    ensures Consistent(r.(remote := h))
  {
    forall a: Head | Reachable(a, r.remote) ensures Reachable(a, h) {
      ReachableTrans(a, r.remote, h);
    }
  }

  lemma Intended(r: Repo, op: OperationId, e: Event)
    requires Consistent(r) && r.intents == map[] && e.checksum == op.checksum && Reachable(r.local, r.remote)
    ensures Consistent(r.(intents := r.intents[op := Receipt(e, r.local, None)]))
  {
    ReachableSelf(r.local);
  }

  lemma RecordedOwn(r: Repo, op: OperationId, e: Event)
    requires Consistent(r) && op in r.intents && r.intents[op].event == e && r.local == r.intents[op].base && op !in r.pendings && e !in r.log
    ensures Consistent(r.(local := Some(Own(r.local, e)), log := r.log + [e]))
  {
    OwnHistory(r.local, e);
    var own := Own(r.local, e);
    forall d | d in r.log + [e] ensures Holds(Some(own), d) {
      if d in r.log {
        var c :| c in History(r.local) && c.change == Recorded(d);
        assert c in History(Some(own));
      } else {
        assert own in History(Some(own));
      }
    }
  }

  lemma FinalizedHere(r: Repo, op: OperationId)
    requires Consistent(r) && op in r.intents && op !in r.pendings && r.local.Some? && r.intents[op].event in r.log
    ensures Consistent(r.(pendings := r.pendings[op := r.intents[op].(commit := r.local)]))
  {
    ReachableSelf(r.local);
  }

  // A finalized commit whose base is still the remote head is ahead of the remote, and level with the local branch.
  lemma PendingIsAhead(r: Repo, op: OperationId)
    requires Consistent(r) && op in r.pendings && r.remote == r.pendings[op].base
    ensures Reachable(r.remote, r.pendings[op].commit) && r.local == r.pendings[op].commit
  {
    IntentHolds(r, op);
    UndisturbedShape(r, op);
  }

  lemma IntentHolds(r: Repo, op: OperationId)
    requires Consistent(r) && op in r.pendings
    ensures op in r.intents && r.pendings[op].base == r.intents[op].base && r.pendings[op].event == r.intents[op].event
  {
  }

  // The compare-and-swap: the remote is still the base, so it moves to a descendant.
  lemma PushedHere(r: Repo, op: OperationId)
    requires Consistent(r) && op in r.pendings && r.remote == r.pendings[op].base
    ensures Consistent(r.(remote := r.pendings[op].commit)) && Reachable(r.remote, r.pendings[op].commit)
    ensures Reachable(r.local, r.pendings[op].commit)
  {
    PendingIsAhead(r, op);
    ReachableSelf(r.local);
    hide Faithful, Reachable, History, Holds, Own;
  }

  lemma Synchronized(r: Repo, h: Head)
    requires Consistent(r) && Reachable(r.local, h) && Reachable(h, r.remote)
    ensures Consistent(r.(local := h))
  {
    HistoryGrows(r.local, h);
    HistoryGrows(h, r.remote);
    forall p | p in r.intents ensures Fits(h, r.remote, r.intents[p]) {
      ReachableTrans(r.intents[p].base, r.local, h);
    }
    forall p | p in r.pendings ensures Finalized(h, r.remote, r.pendings[p]) {
      ReachableTrans(r.pendings[p].commit, r.local, h);
    }
    forall e | e in r.log ensures Holds(h, e) {
      var c :| c in History(r.local) && c.change == Recorded(e);
      assert c in History(h);
    }
  }

  lemma PendingRemoved(r: Repo, op: OperationId)
    requires Consistent(r)
    ensures Consistent(r.(pendings := r.pendings - {op}))
  {
  }

  lemma IntentRemoved(r: Repo, op: OperationId)
    requires Consistent(r) && op !in r.pendings && (op in r.intents ==> Reachable(r.local, r.remote))
    ensures Consistent(r.(intents := r.intents - {op}))
  {
    if op !in r.intents {
      assert r.intents - {op} == r.intents;
    }
  }

  lemma PendingIs(r: Repo, op: OperationId)
    requires Consistent(r) && op in r.pendings
    ensures op in r.intents && r.local.Some? && r.pendings[op].commit.Some? && Holds(r.pendings[op].commit, r.pendings[op].event)
    ensures r.pendings[op].base == r.intents[op].base && r.pendings[op].event == r.intents[op].event
  {
  }

  // If nobody else has pushed since the base, the local branch is the base or exactly one own commit ahead.
  lemma UndisturbedShape(r: Repo, op: OperationId)
    requires Consistent(r) && op in r.intents
    requires r.remote == r.intents[op].base || r.remote == Some(Own(r.intents[op].base, r.intents[op].event))
    ensures var x := r.intents[op];
      && (r.local == x.base || (r.local == Some(Own(x.base, x.event)) && x.event in r.log))
      && (op in r.pendings ==> Deliverable(r.local, r.remote, r.pendings[op]))
  {
    var x := r.intents[op];
    var own := Own(x.base, x.event);
    OwnHistory(x.base, x.event);
    if Reachable(r.local, r.remote) {
      if r.remote == x.base {
        ReachableAntisymmetric(r.local, x.base);
      } else if r.local.Some? && r.local != Some(own) {
        ReachableAntisymmetric(r.local, x.base);
      }
    }
    if r.local == Some(own) {
      assert own in History(r.local);
    }
    if op in r.pendings {
      PendingIsLocal(r, op);
    }
  }

  lemma OwnIsFirst(base: Head, e: Event, log: seq<Event>)
    requires Faithful(Some(Own(base, e)), log)
    ensures !Holds(base, e)
  {
    var own := Own(base, e);
    OwnHistory(base, e);
    forall c | c in History(base) ensures c.change != Recorded(e) {
      assert c in History(Some(own)) && own in History(Some(own));
    }
  }

  lemma PendingIsLocal(r: Repo, op: OperationId)
    requires Consistent(r) && op in r.pendings
    requires var x := r.pendings[op]; r.local == x.base || r.local == Some(Own(x.base, x.event))
    ensures r.pendings[op].commit == r.local
  {
    var x := r.pendings[op];
    OwnHistory(x.base, x.event);
    if r.local == x.base {
      ReachableAntisymmetric(x.commit, x.base);
    } else {
      OwnIsFirst(x.base, x.event, r.log);
      if x.commit != r.local {
        ReachableAntisymmetric(x.commit, x.base);
      }
    }
  }

  // ----------------------------------------------------------- main results

  // However often operations were stopped and run again, an event is in exactly one commit of both branches taken together.
  lemma {:induction false} OneCommitPerEvent(r: Repo, c: Commit, d: Commit)
    requires Consistent(r) && c.change.Recorded? && c.change == d.change
    requires c in History(r.local) || c in History(r.remote)
    requires d in History(r.local) || d in History(r.remote)
    ensures c == d && c.change.event in r.log
  {
  }

  // Nobody else has pushed since the operation's base.
  predicate Deliverable(local: Head, remote: Head, x: Receipt) {
    local == x.commit && Reachable(x.base, x.commit) && (remote == x.base || remote == x.commit)
  }

  // Proven on the remote already, or the push under its lease can still go through.
  predicate Lands(remote: Head, x: Receipt) {
    Reachable(x.commit, remote) || remote == x.base
  }

  // The head a receipt may name: it holds the event and is at most one commit past the base.
  predicate Bindable(local: Head, log: seq<Event>, x: Receipt) {
    local.Some? && x.event in log && (x.base.None? || CommitCount(x.base, local) <= 1)
  }

  // The head found once the write is past: an earlier run's, or the base with the one commit a new event makes.
  function HeadAfterWrite(local: Head, log: seq<Event>, x: Receipt): Head {
    if local != x.base || x.event in log then local else Some(Own(x.base, x.event))
  }

  // The write is taken or past, and the head found after it can be bound.
  predicate Committable(local: Head, log: seq<Event>, kind: Kind, x: Receipt, ep: E.Endpoint) {
    && (local == x.base ==> Takes(kind, ep, x.event))
    && Bindable(HeadAfterWrite(local, log, x), if local == x.base then log + [x.event] else log, x)
  }

  // On the base itself only the journal can object.
  lemma CommittableHere(local: Head, log: seq<Event>, kind: Kind, x: Receipt, ep: E.Endpoint)
    requires Faithful(local, log) && local == x.base
    ensures Committable(local, log, kind, x, ep) <==> Takes(kind, ep, x.event)
  {
    OwnHistory(x.base, x.event);
    CountOfSelf(x.base);
  }

  // What a run needs to see before it: with a finalized receipt, a remote it can land on; with only the intent, also a
  // write that is taken or past and a head that can be bound; with neither, nothing outstanding and level branches.
  predicate Finishes(r: Repo, kind: Kind, op: OperationId, event: Event, ep: E.Endpoint) {
    if op in r.pendings then r.pendings[op].event == event && Lands(r.remote, r.pendings[op])
    else if op in r.intents then
      var x := r.intents[op];
      x.event == event && Committable(r.local, r.log, kind, x, ep) && Lands(r.remote, x.(commit := HeadAfterWrite(r.local, r.log, x)))
    else r.intents == map[] && r.local == r.remote && Takes(kind, ep, event)
  }

  // What may go wrong during one run: nothing, anything anywhere, or a stop at one of two places.
  datatype Weather = Calm | Rough | StopAfterPush | StopBetweenRemovals

  // Whatever the push lands on, the local branch can be levelled with it.
  lemma LocalFollows(r: Repo, op: OperationId, h: Head)
    requires Consistent(r) && op in r.pendings && Reachable(r.pendings[op].commit, h)
    ensures h == r.remote ==> Reachable(r.local, h)
  {
    var x := r.pendings[op];
    if r.local == Some(Own(x.base, x.event)) {
      PendingIsLocal(r, op);
    }
  }

  lemma BaseIsBefore(r: Repo, op: OperationId)
    requires Consistent(r) && op in r.pendings
    ensures Reachable(r.pendings[op].base, r.pendings[op].commit)
  {
  }

  lemma PushIsForward(before: Head, after: Head)
    requires ForeignPush(before, after)
    ensures Reachable(before, after)
  {
  }

  // What others push decides nothing: a receipt that could not land before cannot land after.
  lemma PushesDoNotHelp(r: Repo, op: OperationId, h: Head)
    requires Consistent(r) && op in r.pendings && ForeignPush(r.remote, h)
    ensures Lands(h, r.pendings[op]) ==> Lands(r.remote, r.pendings[op])
  {
    var x := r.pendings[op];
    IntentHolds(r, op);
    if h == x.base {
      ReachableAntisymmetric(h, r.remote);
    }
    if x.commit == Some(Own(x.base, x.event)) {
      OwnIsNotPushed(r.remote, h, x.commit.value);
    }
  }

  lemma OwnIsNotPushed(before: Head, after: Head, c: Commit)
    requires ForeignPush(before, after) && c.change.Recorded?
    ensures Reachable(Some(c), after) ==> Reachable(Some(c), before)
  {
  }

  lemma PushesAddUp(a: Head, b: Head, c: Head)
    requires ForeignPush(a, b) && ForeignPush(b, c)
    ensures ForeignPush(a, c)
  {
    ReachableTrans(a, b, c);
  }

  // ------------------------------------------------------------- the journal

  class GitPushJournal {
    const journal: M.MemoryJournal
    var local: Head
    var remote: Head
    var intents: map<OperationId, Receipt>
    var pendings: map<OperationId, Receipt>

    ghost function State(): Repo
      reads this, journal
    {
      Repo(local, remote, intents, pendings, journal.events)
    }

    ghost predicate Sound()
      reads this, journal
    {
      journal.Consistent() && Consistent(State())
    }

    // From a clone that is level with its remote.
    constructor (journal: M.MemoryJournal, head: Head)
      requires journal.Consistent() && Faithful(head, journal.events)
      ensures this.journal == journal && Sound() && State() == Repo(head, head, map[], map[], journal.events)
    {
      this.journal, local, remote, intents, pendings := journal, head, head, map[], map[];
      ReachableSelf(head);
    }

    // Somebody else's push: never one of this endpoint's own commits.
    method PushElsewhere(pushed: Head)
      requires Sound() && ForeignPush(remote, pushed)
      modifies this`remote
      ensures Sound() && remote == pushed
    {
      PushedByOthers(State(), pushed);
      remote := pushed;
    }

    // Others may push at any time, unless it is calm.
    method OthersPush(calm: bool)
      requires Sound()
      modifies this`remote
      ensures Sound() && ForeignPush(old(remote), remote) && (calm ==> remote == old(remote))
    {
      ReachableSelf(remote);
      var pushed: Head := *;
      if !calm && ForeignPush(remote, pushed) {
        PushElsewhere(pushed);
      }
    }

    // Whether anything goes wrong here: a crash, a Git failure. Never when it is calm.
    method Stops(calm: bool) returns (stop: bool)
      ensures calm ==> !stop
    {
      stop := *;
      stop := stop && !calm;
    }

    // A live read, a fetch, and an ancestry proof; a remote that moves in between is an error.
    method RemoteContains(commit: Commit, calm: bool) returns (durable: bool, fetched: Head, failure: Option<Error>)
      requires Sound()
      modifies this`remote
      ensures Sound() && ForeignPush(old(remote), remote)
      ensures durable ==> failure.None? && Reachable(Some(commit), fetched) && Reachable(fetched, remote) && ForeignPush(old(remote), fetched)
      ensures calm ==> failure.None? && remote == old(remote) && fetched == remote && (durable <==> Reachable(Some(commit), remote))
    {
      ReachableSelf(remote);
      OthersPush(calm);
      var observed := remote;
      ReachableSelf(remote);
      var stop := Stops(calm);
      if stop {
        return false, None, Some(StorageFailure);
      }
      if observed.None? {
        return false, None, None;
      }
      OthersPush(calm);
      PushesAddUp(old(remote), observed, remote);
      fetched := remote;
      if fetched != observed {
        return false, None, Some(StorageFailure);
      }
      durable, failure := commit in History(fetched), None;
    }

    // Fast-forwards the local branch to a proven remote descendant, or leaves it.
    method SynchronizeLocalToRemote(fetched: Head, calm: bool) returns (failure: Option<Error>)
      requires Sound() && Reachable(fetched, remote)
      modifies this`local
      ensures Sound() && Reachable(old(local), local)
      ensures failure.None? ==> local == fetched
      ensures failure.Some? ==> local == old(local)
      ensures calm && local.Some? && Reachable(old(local), fetched) ==> failure.None?
    {
      ReachableSelf(local);
      if local == fetched {
        return None;
      }
      if local.None? {
        return Some(NoCommit);
      }
      if !Reachable(local, fetched) {
        return Some(NotDescendant);
      }
      var stop := Stops(calm);
      if stop {
        return Some(StorageFailure);
      }
      Synchronized(State(), fetched);
      local := fetched;
      failure := None;
    }

    // The pending file goes first, then the intent; a crash in between leaves the intent.
    method RemoveOperation(op: OperationId, w: Weather) returns (failure: Option<Error>)
      requires Sound() && (op in intents ==> Reachable(local, remote))
      modifies this`intents, this`pendings
      ensures Sound()
      ensures op !in pendings && (failure.None? ==> op !in intents) && (w.Calm? ==> failure.None?)
      ensures w.StopBetweenRemovals? ==> failure.Some? && intents == old(intents)
      ensures intents == old(intents) || intents == old(intents) - {op}
      ensures pendings == old(pendings) - {op}
    {
      PendingRemoved(State(), op);
      pendings := pendings - {op};
      var stop := Stops(!w.Rough?);
      if stop || w.StopBetweenRemovals? {
        return Some(Interrupted);
      }
      IntentRemoved(State(), op);
      intents := intents - {op};
      failure := None;
    }

    // What every step of a delivery keeps.
    twostate predicate Progress(op: OperationId)
      reads this, journal
    {
      && Sound() && Reachable(old(remote), remote) && Reachable(old(local), local)
      && (forall p :: p != op ==> (p in intents <==> p in old(intents)) && (p in intents ==> intents[p] == old(intents)[p]))
      && (forall p :: p != op ==> (p in pendings <==> p in old(pendings)) && (p in pendings ==> pendings[p] == old(pendings)[p]))
    }

    // A receipt that can land lands, unless something goes wrong; one that cannot never does, whatever happens.
    method PushPendingLocked(op: OperationId, w: Weather) returns (failure: Option<Error>)
      requires Sound() && op in pendings
      modifies this`local, this`remote, this`intents, this`pendings
      ensures Progress(op) && journal.events == old(journal.events)
      ensures failure.None? ==> op !in Open(State())
      ensures op !in Open(State()) ==> Holds(remote, old(pendings)[op].event)
      ensures failure.None? ==> Lands(old(remote), old(pendings)[op])
      ensures w.Calm? && Lands(old(remote), old(pendings)[op]) ==> failure.None?
      ensures w.StopAfterPush? && !Reachable(old(pendings)[op].commit, old(remote)) && Lands(old(remote), old(pendings)[op]) ==>
        failure.Some? && State() == old(State()).(remote := old(pendings)[op].commit)
      ensures w.StopBetweenRemovals? && Reachable(old(pendings)[op].commit, old(remote)) ==>
        failure.Some? && State() == old(State()).(local := old(remote), pendings := old(pendings) - {op})
    {
      hide Faithful, Shared, Receipts, Holds, History, M.Indexed, Valid, Reachable, ForeignPush, Consistent, Own;
      var x := pendings[op];
      PendingIs(State(), op);
      ReachableSelf(local);
      ghost var start := State();
      var durable, fetched;
      durable, fetched, failure := RemoteContains(x.commit.value, !w.Rough?);
      ghost var here := remote;
      PushIsForward(start.remote, here);
      if failure.None? && durable {
        PushesDoNotHelp(start, op, fetched);
        LocalFollows(State(), op, fetched);
        failure := Complete(op, fetched, w);
        return;
      }
      if x.base.Some? && !Reachable(x.base, x.commit) {
        assert false by { BaseIsBefore(State(), op); }
      }
      OthersPush(!w.Rough?);
      PushesAddUp(start.remote, here, remote);
      PushIsForward(start.remote, remote);
      if remote != x.base {
        return Some(PushRejected);
      }
      PushesDoNotHelp(start, op, remote);
      ghost var base := remote;
      failure := PushAndComplete(op, w);
      ReachableTrans(start.remote, base, remote);
    }

    // The push itself, under its lease, and the proof that it landed.
    method PushAndComplete(op: OperationId, w: Weather) returns (failure: Option<Error>)
      requires Sound() && op in pendings && remote == pendings[op].base
      modifies this`local, this`remote, this`intents, this`pendings
      ensures Progress(op) && journal.events == old(journal.events)
      ensures failure.None? ==> op !in Open(State())
      ensures op !in Open(State()) ==> Holds(remote, old(pendings)[op].event)
      ensures w.Calm? ==> failure.None?
      ensures w.StopAfterPush? ==> failure.Some? && State() == old(State()).(remote := old(pendings)[op].commit)
    {
      hide Faithful, Shared, Receipts, Reachable, Holds, M.Indexed, Valid, ForeignPush;
      var x := pendings[op];
      PendingIs(State(), op);
      ReachableSelf(local);
      ReachableSelf(remote);
      var unreachable := Stops(!w.Rough?);
      if unreachable {
        return Some(StorageFailure);
      }
      PushedHere(State(), op);
      remote := x.commit;
      var stop := Stops(!w.Rough?);
      if stop || w.StopAfterPush? {
        return Some(Interrupted);
      }
      ghost var pushed := remote;
      var durable, fetched;
      durable, fetched, failure := RemoteContains(x.commit.value, !w.Rough?);
      PushIsForward(pushed, remote);
      ReachableTrans(old(remote), pushed, remote);
      if failure.Some? {
        return;
      }
      ReachableSelf(x.commit);
      if !durable {
        return Some(RemoteMissing);
      }
      ghost var here := remote;
      failure := Complete(op, fetched, w);
      ReachableTrans(old(remote), here, remote);
    }

    // The commit is proven on the remote: level the local branch and drop the receipt.
    method Complete(op: OperationId, fetched: Head, w: Weather) returns (failure: Option<Error>)
      requires Sound() && op in pendings && Reachable(pendings[op].commit, fetched) && Reachable(fetched, remote)
      modifies this`local, this`intents, this`pendings
      ensures Progress(op) && journal.events == old(journal.events) && remote == old(remote)
      ensures failure.None? ==> op !in Open(State())
      ensures op !in Open(State()) ==> Holds(remote, old(pendings)[op].event)
      ensures w.Calm? && Reachable(old(local), fetched) ==> failure.None?
      ensures w.StopBetweenRemovals? && Reachable(old(local), fetched) ==>
        failure.Some? && local == fetched && intents == old(intents) && pendings == old(pendings) - {op}
    {
      hide Faithful, Shared, Receipts, Reachable, M.Indexed, Valid, Holds;
      PendingIs(State(), op);
      HoldsFurther(pendings[op].commit, fetched, remote, pendings[op].event);
      ReachableSelf(local);
      ReachableSelf(remote);
      failure := SynchronizeLocalToRemote(fetched, !w.Rough?);
      if failure.Some? {
        return;
      }
      failure := RemoveOperation(op, w);
    }

    lemma HoldsFurther(a: Head, b: Head, c: Head, e: Event)
      requires Holds(a, e) && Reachable(a, b) && Reachable(b, c)
      ensures Holds(b, e) && Holds(c, e)
    {
      HistoryGrows(a, b);
      HistoryGrows(b, c);
    }

    // A new operation: only one may be outstanding, and the branches must be level.
    method Begin(op: OperationId, event: Event, calm: bool) returns (failure: Option<Error>)
      requires Sound() && op !in intents && event.checksum == op.checksum
      modifies this`remote, this`intents
      ensures Progress(op)
      ensures failure.None? ==> old(intents) == map[] && local == old(remote) && intents == map[op := Receipt(event, local, None)] && op !in pendings
      ensures calm ==> remote == old(remote) && (old(intents) == map[] && local == remote ==> failure.None?)
    {
      hide Faithful, Shared, Receipts, Reachable, M.Indexed, Valid, ForeignPush;
      NoIntentNoPending(State(), op);
      EmptyIsLevel(State());
      ReachableSelf(local);
      ReachableSelf(remote);
      if intents != map[] {
        return Some(PendingGitDelivery);
      }
      var expected := remote;
      OthersPush(calm);
      PushIsForward(expected, remote);
      if expected != local {
        return Some(NotExpectedBase);
      }
      Intended(State(), op, event);
      intents := intents[op := Receipt(event, local, None)];
      var stop := Stops(calm);
      failure := if stop then Some(Interrupted) else None;
    }

    // The local write of the operation, through the seam its kind names.
    method AppendLocally(kind: Kind, op: OperationId, event: Event) returns (failure: Option<Error>)
      requires Sound() && op in intents && op !in pendings && intents[op].event == event && local == intents[op].base
      modifies this`local, journal
      ensures Sound() && Reachable(old(local), local)
      ensures failure.None? <==> Takes(kind, old(journal.State()), event)
      ensures failure.Some? ==> local == old(local) && journal.events == old(journal.events)
      ensures failure.None? ==> event in journal.events && local == HeadAfterWrite(old(local), old(journal.events), intents[op])
      ensures Wrote(old(journal.events), journal.events, event)
    {
      hide Faithful, Shared, Receipts, Valid, Decide, Holds, History, M.Indexed, E.Append, E.Ingest, CommitCount;
      ReachableSelf(local);
      ghost var before := State();
      ghost var ep := journal.State();
      SeamsTake(ep, event);
      var known := |journal.events|;
      match kind {
        case AppendOperation => failure := journal.Append(event);
        case IngestOperation => failure := journal.IngestReplica(event);
      }
      if |journal.events| > known {
        RecordedOwn(before, op, event);
        OwnHistory(local, event);
        local := Some(Own(local, event));
      }
    }

    // The write, unless an earlier run got past it. A refused write gives the intent up: nothing happened.
    method WriteOnce(kind: Kind, op: OperationId, event: Event, calm: bool) returns (failure: Option<Error>)
      requires Sound() && op in intents && op !in pendings && intents[op].event == event
      modifies this`local, this`intents, this`pendings, journal
      ensures Progress(op) && Wrote(old(journal.events), journal.events, event)
      ensures failure.None? ==> intents == old(intents) && pendings == old(pendings) && local == HeadAfterWrite(old(local), old(journal.events), intents[op])
      ensures op !in intents ==> failure.Some? && local == old(local) && journal.events == old(journal.events)
      ensures var written := old(local) == old(intents)[op].base;
        if written then (failure.None? ==> event in journal.events && Takes(kind, old(journal.State()), event))
        else failure.None? && journal.events == old(journal.events)
      ensures calm && Takes(kind, old(journal.State()), event) ==> failure.None?
    {
      hide Faithful, Shared, Receipts, Valid, Decide, M.Indexed;
      ReachableSelf(local);
      ReachableSelf(remote);
      IntentIs(State(), op);
      if local != intents[op].base {
        return None;
      }
      failure := AppendLocally(kind, op, event);
      if failure.Some? {
        var removal := RemoveOperation(op, if calm then Calm else Rough);
        return;
      }
      var stop := Stops(calm);
      failure := if stop then Some(Interrupted) else None;
    }

    // From a durable intent to a finalized pending receipt.
    method Commit(kind: Kind, op: OperationId, event: Event, calm: bool) returns (failure: Option<Error>)
      requires Sound() && op in intents && op !in pendings && intents[op].event == event && Verify(event).None?
      modifies this`local, this`intents, this`pendings, journal
      ensures Progress(op) && Wrote(old(journal.events), journal.events, event)
      ensures failure.None? ==> intents == old(intents) && Committable(old(local), old(journal.events), kind, intents[op], old(journal.State()))
      ensures failure.None? ==>
        && local == HeadAfterWrite(old(local), old(journal.events), intents[op]) && pendings == old(pendings)[op := intents[op].(commit := local)]
        && event in journal.events
      ensures op !in intents ==> failure.Some? && local == old(local) && journal.events == old(journal.events)
      ensures calm && Committable(old(local), old(journal.events), kind, old(intents)[op], old(journal.State())) ==> failure.None?
      ensures Overtaken(old(State()), op) ==> failure.Some? && State() == old(State())
    {
      hide Faithful, Shared, Receipts, Valid, Decide, M.Indexed, Fits, Finalized, Takes, Reachable, Verify, History, CommitCount, Own, Holds;
      ReachableSelf(remote);
      CountOfSelf(local);
      failure := WriteOnce(kind, op, event, calm);
      if failure.Some? {
        return;
      }
      failure := Bind(op, event, calm);
    }

    // The head found after the write must be the operation's one commit; then the receipt names it.
    method Bind(op: OperationId, event: Event, calm: bool) returns (failure: Option<Error>)
      requires Sound() && op in intents && op !in pendings && intents[op].event == event && Verify(event).None?
      modifies this`pendings
      ensures Sound() && (pendings == old(pendings) || pendings == old(pendings)[op := intents[op].(commit := local)])
      ensures failure.None? ==> pendings == old(pendings)[op := intents[op].(commit := local)]
      ensures if Bindable(local, journal.events, intents[op]) then calm ==> failure.None? else failure.Some? && pendings == old(pendings)
    {
      hide Shared, Receipts, Valid, Decide, M.Indexed;
      var base := intents[op].base;
      IntentIs(State(), op);
      MemberIsSame(journal.projectId, journal.events, event);
      if local.None? {
        return Some(NoCommit);
      }
      if !HasSame(journal.events, event) {
        return Some(EventAbsent);
      }
      if base.Some? {
        if !Reachable(base, local) {
          return Some(NotDescendant);
        }
        if CommitCount(base, local) > 1 {
          return Some(TooManyCommits);
        }
      }
      var early := Stops(calm);
      if early {
        return Some(Interrupted);
      }
      FinalizedHere(State(), op);
      pendings := pendings[op := intents[op].(commit := local)];
      var late := Stops(calm);
      failure := if late then Some(Interrupted) else None;
    }

    // An operation with a finalized receipt: begun now, or found where an earlier run left it.
    method Prepare(kind: Kind, op: OperationId, event: Event, calm: bool) returns (failure: Option<Error>)
      requires Sound() && Verify(event).None? && op.checksum == event.checksum
      modifies this`local, this`remote, this`intents, this`pendings, journal
      ensures Progress(op) && Wrote(old(journal.events), journal.events, event)
      ensures failure.None? ==> op in pendings && pendings[op].event == event && (calm || op in old(intents) ==> remote == old(remote))
      ensures failure.None? && (op in old(intents) ==> Lands(old(remote), pendings[op])) ==> Finishes(old(State()), kind, op, event, old(journal.State()))
      ensures calm && Finishes(old(State()), kind, op, event, old(journal.State())) ==> failure.None? && Lands(remote, pendings[op])
      ensures op in old(intents) && op !in intents ==> failure.Some? && local == old(local) && journal.events == old(journal.events)
      ensures op in old(pendings) ==> State() == old(State()) && (failure.None? <==> pendings[op].event == event)
      ensures Overtaken(old(State()), op) ==> failure.Some? && State() == old(State())
      ensures failure.None? && op !in old(intents) ==>
        && Begun(old(State()), op, event, State().(remote := old(remote))) && Lands(old(remote), pendings[op])
        && (event !in old(journal.events) ==> pendings[op].commit == local && !Reachable(local, old(remote)))
    {
      hide Faithful, Shared, Receipts, Valid, Decide, M.Indexed, Fits, Finalized, Takes, Reachable, CommitCount, Own, Verify, Committable;
      ReachableSelf(local);
      ReachableSelf(remote);
      OwnIsNew(local, event);
      if op in pendings {
        PendingIs(State(), op);
        return if pendings[op].event != event then Some(PayloadMismatch) else None;
      }
      if op !in intents {
        LevelledHere(State());
        CommittableHere(local, journal.events, kind, Receipt(event, local, None), journal.State());
        failure := Begin(op, event, calm);
        if failure.Some? {
          return;
        }
      } else if intents[op].event != event {
        return Some(PayloadMismatch);
      }
      failure := Commit(kind, op, event, calm);
    }

    // What a run of an operation comes to. Nothing that happens on the way can finish one that did not have what it needs
    // before, and a calm run finishes every one that has.
    twostate predicate Ran(kind: Kind, op: OperationId, event: Event, w: Weather, failed: bool)
      reads this, journal
    {
      && Progress(op) && Wrote(old(journal.events), journal.events, event)
      && (!failed ==> op !in Open(State()) && Holds(remote, event))
      && (op in old(intents) && op !in intents ==> Holds(remote, event) || (failed && local == old(local) && journal.events == old(journal.events)))
      && (!failed ==> Finishes(old(State()), kind, op, event, old(journal.State())))
      && (w.Calm? && Finishes(old(State()), kind, op, event, old(journal.State())) ==> !failed)
      && (Overtaken(old(State()), op) ==> failed && State() == old(State()))
    }

    // Where the two stops leave an operation: pushed and not yet read back, or without its pending file only.
    twostate predicate Left(kind: Kind, op: OperationId, event: Event, w: Weather, failed: bool)
      reads this, journal
    {
      && (w.StopAfterPush? && op !in old(intents) && event !in old(journal.events) && Finishes(old(State()), kind, op, event, old(journal.State())) ==>
            failed && remote == local && Begun(old(State()), op, event, State().(remote := old(remote))))
      && (w.StopBetweenRemovals? && op in old(pendings) && old(pendings)[op].event == event && Reachable(old(pendings)[op].commit, old(remote)) ==>
            failed && State() == old(State()).(local := old(remote), pendings := old(pendings) - {op}))
    }

    // From wherever an earlier run stopped, or from the beginning.
    method RunOperationLocked(kind: Kind, op: OperationId, event: Event, w: Weather) returns (failure: Option<Error>)
      requires Sound() && Verify(event).None? && op.checksum == event.checksum
      modifies this`local, this`remote, this`intents, this`pendings, journal
      ensures Ran(kind, op, event, w, failure.Some?)
      ensures Left(kind, op, event, w, failure.Some?)
    {
      hide Faithful, Shared, Receipts, Valid, Decide, M.Indexed, Fits, Finalized, Takes, Reachable, Holds, Overtaken, Verify, Finishes, Begun, Lands, Consistent, HeadAfterWrite, Own, Committable, Undisturbed;
      ReachableSelf(local);
      ReachableSelf(remote);
      failure := Prepare(kind, op, event, !w.Rough?);
      if failure.Some? {
        return;
      }
      OpenIs(State(), op);
      ghost var started, written := remote, local;
      failure := PushPendingLocked(op, w);
      OpenIs(State(), op);
      ReachableTrans(old(remote), started, remote);
      ReachableTrans(old(local), written, local);
    }

    // deliverEvent: a refused event goes nowhere, any other through its operation.
    method Deliver(kind: Kind, event: Event, w: Weather) returns (failure: Option<Error>)
      requires Sound()
      modifies this`local, this`remote, this`intents, this`pendings, journal
      ensures Verify(event).Some? ==> failure == Verify(event) && State() == old(State()) && Sound()
      ensures Verify(event).None? ==>
        Ran(kind, OperationId(kind, event.checksum), event, w, failure.Some?) && Left(kind, OperationId(kind, event.checksum), event, w, failure.Some?)
      ensures (&& w.Calm? && old(intents) == map[] && old(local) == old(remote) && kind.IngestOperation? && old(journal.role).Replica?
               && Decide(journal.projectId, old(journal.events), event) == Decision.Commit) ==>
        failure.None? && event in journal.events && Holds(remote, event)
      ensures (&& w.Calm? && old(intents) == map[] && old(local) == old(remote) && kind.AppendOperation?
               && old(journal.role).Active? && event.Cursor().epoch == old(journal.epoch)
               && Decide(journal.projectId, old(journal.events), event) == Decision.Commit) ==>
        failure.None? && event in journal.events && Holds(remote, event)
    {
      hide Verify, Left, Finishes, Holds, Consistent, Overtaken, Reachable, M.Indexed, Valid, Begun;
      CommitsVerify(journal.projectId, journal.events, event);
      hide Decide;
      if intents == map[] && local == remote && Decide(journal.projectId, journal.events, event) == Decision.Commit
        && (if kind.IngestOperation? then journal.role.Replica? else journal.role.Active? && event.Cursor().epoch == journal.epoch) {
        NextEventFinishes(State(), kind, OperationId(kind, event.checksum), event, journal.State());
      }
      failure := Verify(event);
      if failure.Some? {
        return;
      }
      failure := RunOperationLocked(kind, OperationId(kind, event.checksum), event, w);
      if failure.None? {
        HeldIsLogged(State(), event);
      }
    }
  }

  // The write added this one new event, or nothing.
  predicate Wrote(before: seq<Event>, after: seq<Event>, event: Event) {
    after == before || (after == before + [event] && event !in before)
  }

  // From level branches and nothing outstanding: the event is written, and its receipt names the head it made.
  predicate Begun(r: Repo, op: OperationId, event: Event, t: Repo) {
    var x := Receipt(event, r.local, None);
    var l := HeadAfterWrite(r.local, r.log, x);
    && r.intents == map[] && r.local == r.remote
    && t == Repo(l, r.remote, map[op := x], map[op := x.(commit := l)], if event in r.log then r.log else r.log + [event])
  }

  // Whether the journal's seam for this kind of operation takes the event: an append goes to the active endpoint at its own
  // epoch, an ingest to a replica, and the event is in the log already or the next one.
  predicate Takes(kind: Kind, ep: E.Endpoint, event: Event) {
    && (match kind
        case AppendOperation => ep.role.Active? && event.Cursor().epoch == ep.epoch
        case IngestOperation => ep.role.Replica?)
    && (event in ep.log || Decide(ep.project, ep.log, event) == Decision.Commit)
  }

  lemma SeamsTake(ep: E.Endpoint, event: Event)
    requires E.Sound(ep)
    ensures E.Append(ep, event).1.None? <==> Takes(AppendOperation, ep, event)
    ensures E.Ingest(ep, event).1.None? <==> Takes(IngestOperation, ep, event)
    ensures TakenShape(ep, E.Append(ep, event).0, E.Append(ep, event).1, event)
    ensures TakenShape(ep, E.Ingest(ep, event).0, E.Ingest(ep, event).1, event)
  {
    hide Decide, Valid;
    DecideExact(ep.project, ep.log, event);
    E.AppendDataSound(ep, event);
  }

  predicate TakenShape(ep: E.Endpoint, after: E.Endpoint, failure: Option<Error>, event: Event) {
    && (failure.Some? ==> after == ep)
    && (failure.None? ==> event in after.log)
    && (after.log == ep.log || (after.log == ep.log + [event] && event !in ep.log))
  }

  lemma MemberIsSame(project: Text, log: seq<Event>, e: Event)
    requires Valid(project, log) && Verify(e).None?
    ensures HasSame(log, e) <==> e in log
  {
    if HasSame(log, e) {
      var i :| 0 <= i < |log| && log[i].Id() == e.Id() && log[i].checksum == e.checksum;
      Linked(project, log, i);
      assert log[i] == e;
    }
    if e in log {
      var i :| 0 <= i < |log| && log[i] == e;
      assert log[i].Id() == e.Id();
    }
  }

  lemma NoIntentNoPending(r: Repo, op: OperationId)
    requires Consistent(r) && op !in r.intents
    ensures op !in r.pendings
  {
  }

  lemma OpenIs(r: Repo, op: OperationId)
    requires Consistent(r)
    ensures op in Open(r) <==> op in r.intents
    ensures op in r.pendings ==> op in r.intents && r.pendings[op].event == r.intents[op].event && r.pendings[op].commit.Some?
  {
  }

  lemma LevelledHere(r: Repo)
    requires Consistent(r)
    ensures Faithful(r.local, r.log) && Shared(r.local, r.remote) && (r.intents == map[] ==> r.pendings == map[])
  {
  }

  lemma EmptyIsLevel(r: Repo)
    requires Consistent(r)
    ensures r.intents == map[] ==> Reachable(r.local, r.remote)
  {
  }

  lemma IntentIs(r: Repo, op: OperationId)
    requires Consistent(r) && op in r.intents
    ensures r.intents[op].commit.None? && Fits(r.local, r.remote, r.intents[op])
  {
  }

  // Nobody else has pushed since the intent was written.
  predicate Undisturbed(r: Repo, op: OperationId) {
    op in r.intents && (r.remote == r.intents[op].base || r.remote == Some(Own(r.intents[op].base, r.intents[op].event)))
  }

  // With nothing outstanding and level branches: the next event of its source on a replica, and the next event of its own term
  // on the active endpoint, each have all that a delivery needs.
  lemma NextEventFinishes(r: Repo, kind: Kind, op: OperationId, e: Event, ep: E.Endpoint)
    requires Consistent(r) && r.intents == map[] && r.local == r.remote
    requires Decide(ep.project, ep.log, e) == Decision.Commit
    requires kind.IngestOperation? ==> ep.role.Replica?
    requires kind.AppendOperation? ==> ep.role.Active? && e.Cursor().epoch == ep.epoch
    ensures Finishes(r, kind, op, e, ep)
  {
    hide Decide;
    LevelledHere(r);
  }

  lemma CommitsVerify(project: Text, log: seq<Event>, e: Event)
    ensures Decide(project, log, e) == Decision.Commit ==> Verify(e).None?
  {
  }

  // Whatever of the log's events the remote holds, the local log holds.
  lemma HeldIsLogged(r: Repo, e: Event)
    requires Consistent(r) && Holds(r.remote, e)
    ensures e in r.log
  {
    hide Receipts;
    var c :| c in History(r.remote) && c.change == Recorded(e);
    assert c in History(r.local);
  }

  // What that comes to for an operation with only its intent left. On the base: the journal takes the event, and nobody else
  // has pushed or the event was recorded before. One own commit ahead: the push can still go out or has landed. Anywhere
  // else: the event is recorded, no more than one commit past the base.
  lemma {:induction false} IntentFinishesExactly(r: Repo, kind: Kind, op: OperationId, ep: E.Endpoint)
    requires Consistent(r) && op in r.intents && op !in r.pendings
    ensures var x := r.intents[op];
      Finishes(r, kind, op, x.event, ep) <==>
        if r.local == x.base then Takes(kind, ep, x.event) && (r.remote == x.base || x.event in r.log)
        else if r.local == Some(Own(x.base, x.event)) then r.remote == x.base || Reachable(r.local, r.remote)
        else x.event in r.log && (x.base.None? || CommitCount(x.base, r.local) <= 1)
  {
    hide Takes, History, Own, CommitCount;
    var x := r.intents[op];
    OwnHistory(x.base, x.event);
    if r.local == x.base {
      CommittableHere(r.local, r.log, kind, x, ep);
      RecordedIsLogged(r, x.base, x.event);
    } else if r.local == Some(Own(x.base, x.event)) {
      RecordedIsLogged(r, x.base, x.event);
      ReachableSelf(r.local);
    }
  }

  lemma PendingFinishes(r: Repo, kind: Kind, op: OperationId, ep: E.Endpoint)
    requires Consistent(r) && op in r.pendings
    ensures op in r.intents && r.pendings[op].event == r.intents[op].event && r.pendings[op].base == r.intents[op].base
    ensures Finishes(r, kind, op, r.intents[op].event, ep) <==> Lands(r.remote, r.pendings[op])
  {
  }

  lemma RecordedIsLogged(r: Repo, base: Head, e: Event)
    requires Faithful(r.local, r.log) && Shared(r.local, r.remote)
    ensures Reachable(Some(Own(base, e)), r.remote) || Reachable(Some(Own(base, e)), r.local) ==> e in r.log
  {
    assert Own(base, e).change == Recorded(e);
  }

  // An overtaken operation lacks what a run needs, whatever the journal and the remote are.
  lemma OvertakenNeverFinishes(r: Repo, kind: Kind, op: OperationId, event: Event, ep: E.Endpoint)
    requires Overtaken(r, op)
    ensures !Finishes(r, kind, op, event, ep)
  {
    CountOfSelf(r.local);
  }

  // With nobody else's push since its intent, a stopped operation finishes unless the journal refuses its event now.
  lemma UndisturbedFinishes(r: Repo, kind: Kind, op: OperationId, event: Event, ep: E.Endpoint)
    requires Consistent(r) && Undisturbed(r, op) && r.intents[op].event == event && ep.log == r.log && E.Sound(ep)
    requires r.local != r.intents[op].base || op in r.pendings || Takes(kind, ep, event)
    ensures Finishes(r, kind, op, event, ep)
  {
    hide Faithful, Shared, Receipts, Fits, Finalized, Own, History, CommitCount, Holds, Verify, Decide, Valid, Consistent, Takes, Finishes;
    var x := r.intents[op];
    UndisturbedShape(r, op);
    ReachableSelf(r.remote);
    if op in r.pendings {
      PendingFinishes(r, kind, op, ep);
    } else {
      IntentFinishesExactly(r, kind, op, ep);
      RecordedIsLogged(r, x.base, x.event) by { LevelledHere(r); }
    }
  }

  // Only the intent is left, and the local branch has gone more than one commit past the base.
  predicate Overtaken(r: Repo, op: OperationId) {
    && op in r.intents && op !in r.pendings
    && r.intents[op].base.Some? && CommitCount(r.intents[op].base, r.local) > 1
  }

  lemma OwnIsNew(base: Head, e: Event)
    ensures !Reachable(Some(Own(base, e)), base)
  {
    OwnHistory(base, e);
  }

  lemma CountOfSelf(h: Head)
    ensures CommitCount(h, h) == 0
  {
    assert History(h) - History(h) == {};
  }

  // ---------------------------------------------------------- a run that gets stuck

  const BASE := Commits.Commit.Commit([], Foreign(0))

  const SAMPLE_FIELDS := Fields(StateChangeV1, [1], [2], Cursor(1, 1), 1, [3], [4], [5], [], Other([6], 0))

  const SAMPLE := Event(SAMPLE_FIELDS, NoDigest, Sha256(SAMPLE_FIELDS, NoDigest))

  const OWN := Own(Some(BASE), SAMPLE)

  const THEIRS := Commits.Commit.Commit([OWN], Foreign(1))

  const SAMPLE_OPERATION := OperationId(AppendOperation, SAMPLE.checksum)

  const SAMPLE_OPTIONS := M.Options([1], [7], Active, 1, [])

  // The states the two stopped runs leave.
  const SAMPLE_PUSHED := Repo(Some(OWN), Some(OWN), map[SAMPLE_OPERATION := Receipt(SAMPLE, Some(BASE), None)],
                              map[SAMPLE_OPERATION := Receipt(SAMPLE, Some(BASE), Some(OWN))], [SAMPLE])
  const SAMPLE_LEVELLED := SAMPLE_PUSHED.(local := Some(THEIRS), remote := Some(THEIRS), pendings := map[])

  lemma SampleHistories()
    ensures History(Some(BASE)) == {BASE} && History(Some(OWN)) == {OWN, BASE} && History(Some(THEIRS)) == {THEIRS, OWN, BASE}
    ensures OWN != BASE && THEIRS != OWN && THEIRS != BASE
  {
    hide SAMPLE, Depth, CommitCount, Reachable;
    assert Ancestors(BASE) == {BASE};
    OwnHistory(Some(BASE), SAMPLE);
    assert THEIRS.parents[0] == OWN;
    assert History(Some(THEIRS)) == {THEIRS, OWN, BASE};
  }

  lemma SampleIsOvertaken()
    ensures ForeignPush(Some(OWN), Some(THEIRS)) && Reachable(Some(OWN), Some(THEIRS)) && Holds(Some(THEIRS), SAMPLE)
    ensures Overtaken(SAMPLE_LEVELLED, SAMPLE_OPERATION)
  {
    hide SAMPLE;
    SampleHistories();
    assert History(Some(THEIRS)) - History(Some(BASE)) == {THEIRS, OWN};
    assert OWN in History(Some(THEIRS));
  }

  lemma SampleFits()
    ensures M.ValidOptions(SAMPLE_OPTIONS) && Verify(SAMPLE).None?
    ensures Takes(AppendOperation, M.Fresh(SAMPLE_OPTIONS), SAMPLE)
    ensures Faithful(Some(BASE), [])
  {
    assert !IsSpace([1][0]) && !IsSpace([7][0]) && !IsSpace([2][0]) && !IsSpace([3][0]) && !IsSpace([4][0]) && !IsSpace([5][0]) && !IsSpace([6][0]);
    SampleHistories();
  }

  lemma SampleBegins(r: Repo, ep: E.Endpoint, t: Repo)
    requires r == Repo(Some(BASE), Some(BASE), map[], map[], []) && ep == M.Fresh(SAMPLE_OPTIONS)
    ensures Finishes(r, AppendOperation, SAMPLE_OPERATION, SAMPLE, ep)
    ensures Begun(r, SAMPLE_OPERATION, SAMPLE, t) ==> t == SAMPLE_PUSHED.(remote := Some(BASE))
  {
    hide SAMPLE, Takes, Own;
    SampleFits();
  }

  // A delivery stopped after its push, somebody else's push on top of it, a second run stopped between removing the pending
  // and the intent file: the event is on the remote, and no run of its operation, whatever happens in it, changes anything or
  // succeeds again.
  method OvertakenRun(w: Weather) returns (git: GitPushJournal, again: Option<Error>)
    ensures fresh(git) && git.Sound() && git.State() == SAMPLE_LEVELLED
    ensures Holds(git.remote, SAMPLE) && Overtaken(git.State(), SAMPLE_OPERATION) && again.Some?
  {
    hide SAMPLE, OWN, THEIRS, BASE, SAMPLE_FIELDS, Faithful, Overtaken, ForeignPush, Reachable, Holds, Finishes, Begun, Consistent, M.ValidOptions, Valid, M.Indexed, Verify;
    SampleIsOvertaken();
    SampleFits();
    var journal := new M.MemoryJournal(SAMPLE_OPTIONS);
    git := new GitPushJournal(journal, Some(BASE));
    ghost var start, ep := git.State(), journal.State();
    var first := git.Deliver(AppendOperation, SAMPLE, StopAfterPush);
    SampleBegins(start, ep, git.State().(remote := start.remote));
    assert git.State() == SAMPLE_PUSHED;
    git.PushElsewhere(Some(THEIRS));
    var second := git.Deliver(AppendOperation, SAMPLE, StopBetweenRemovals);
    assert git.State() == SAMPLE_LEVELLED;
    again := git.Deliver(AppendOperation, SAMPLE, w);
  }
}
