/** What holds in every reachable cluster, and between an earlier and a later point of any run. */
module Safety {
  import opened Events
  import opened Chain
  import opened Endpoints
  import opened Clusters

  // ------------------------------------------------------------------ runs

  lemma {:induction false} RunKeepsInv(s: Cluster, actions: seq<Action>, t: Cluster, tip: Text, project: Text) returns (newTip: Text)
    requires Inv(s, tip, project) && Reaches(s, actions, t)
    ensures Inv(t, newTip, project) && tip in s.nodes && newTip in t.nodes
    ensures s.nodes[tip].log <= t.nodes[newTip].log
    ensures t.nodes.Keys == s.nodes.Keys && forall x :: x in s.nodes ==> s.nodes[x].log <= t.nodes[x].log
  {
    if actions == [] {
      Unmoved(s, actions, t);
      newTip := tip;
    } else {
      hide Inv, Enabled, Apply, Reaches;
      var last, earlier := actions[|actions| - 1], actions[..|actions| - 1];
      var m := LastStep(s, actions, t);
      var midTip := RunKeepsInv(s, earlier, m, tip, project);
      newTip := StepKeepsInv(m, last, midTip, project);
      StepFactsSay(m, t, midTip, newTip, project);
    }
  }

  lemma StepFactsSay(s: Cluster, t: Cluster, tip: Text, newTip: Text, project: Text)
    requires StepFacts(s, t, tip, newTip, project)
    ensures Inv(t, newTip, project) && tip in s.nodes && newTip in t.nodes
    ensures s.nodes[tip].log <= t.nodes[newTip].log
    ensures t.nodes.Keys == s.nodes.Keys && forall x :: x in s.nodes ==> s.nodes[x].log <= t.nodes[x].log
  {
  }

  lemma ReachedInv(s0: Cluster, first: Text, project: Text, actions: seq<Action>, s: Cluster) returns (tip: Text)
    requires Initial(s0, first, project) && Reaches(s0, actions, s)
    ensures Inv(s, tip, project)
  {
    InitialInv(s0, first, project);
    tip := RunKeepsInv(s0, actions, s, first, project);
  }

  // ---------------------------------------------------------- one authority

  // At most one endpoint is active, whatever the interleaving of writes, deliveries and promotion calls.
  lemma SingleAuthority(s0: Cluster, first: Text, project: Text, actions: seq<Action>, s: Cluster)
    requires Initial(s0, first, project) && Reaches(s0, actions, s)
    ensures forall x, y :: x in s.nodes && y in s.nodes && s.nodes[x].role.Active? && s.nodes[y].role.Active? ==> x == y
  {
    var tip := ReachedInv(s0, first, project, actions, s);
  }

  // A valid log whose head is at epoch n > 1 holds the event that opened it.
  lemma {:induction false} EpochHasOpening(project: Text, log: seq<Event>) returns (e: Event)
    requires Valid(project, log) && log != [] && Last(log).Cursor().epoch > 1
    ensures e in log && e.Cursor() == Cursor(Last(log).Cursor().epoch, 1)
  {
    Linked(project, log, |log| - 1);
    if Last(log).Cursor().sequence == 1 {
      e := Last(log);
    } else {
      e := EpochHasOpening(project, Init(log));
    }
  }

  predicate Grants(e: Event, x: Text, epoch: int) {
    IsCheckpoint(e) && e.Cursor() == Cursor(epoch, 1) && e.fields.payload.candidate == x
  }

  // An endpoint is active at an epoch after the first only under the one checkpoint of that epoch, which names it.
  lemma ActiveIsNamed(s0: Cluster, first: Text, project: Text, actions: seq<Action>, s: Cluster, x: Text) returns (grant: Event)
    requires Initial(s0, first, project) && Reaches(s0, actions, s)
    requires x in s.nodes && s.nodes[x].role.Active? && s.nodes[x].epoch > 1
    ensures grant in s.nodes[x].log && Grants(grant, x, s.nodes[x].epoch)
    ensures forall y, e :: y in s.nodes && e in s.nodes[y].log && IsCheckpoint(e) && e.Cursor().epoch == s.nodes[x].epoch ==> e == grant
  {
    var tip := ReachedInv(s0, first, project, actions, s);
    var log := s.nodes[tip].log;
    grant := EpochHasOpening(project, log);
    CheckpointUnique(project, log, grant);
  }

  // System-wide there is at most one checkpoint per epoch.
  lemma OneCheckpointPerEpoch(s0: Cluster, first: Text, project: Text, actions: seq<Action>, s: Cluster, x: Text, y: Text, d: Event, e: Event)
    requires Initial(s0, first, project) && Reaches(s0, actions, s)
    requires x in s.nodes && y in s.nodes && d in s.nodes[x].log && e in s.nodes[y].log
    requires IsCheckpoint(d) && IsCheckpoint(e) && d.Cursor().epoch == e.Cursor().epoch
    ensures d == e
  {
    var tip := ReachedInv(s0, first, project, actions, s);
    CheckpointUnique(project, s.nodes[tip].log, d);
  }

  predicate HoldsFirstTerm(s: Cluster, y: Text) {
    y in s.nodes && s.nodes[y].role.Active? && s.nodes[y].epoch == 1
  }

  lemma {:induction false} WindowKeepsRole(ep: Endpoint, window: seq<Event>)
    ensures CommitWindow(ep, window).0.role == ep.role && CommitWindow(ep, window).0.epoch == ep.epoch
  {
    hide Decide;
    if window != [] {
      WindowKeepsRole(ep, Init(window));
    }
  }

  lemma CheckpointsOpenLater(s: Cluster, tip: Text, project: Text, n: nat)
    requires Inv(s, tip, project) && n in s.calls && s.calls[n].Holding?
    ensures s.calls[n].checkpoint.Cursor().epoch > 1
  {
    assert CallFits(s.nodes, s.calls[n]);
    assert s.calls[n].checkpoint in s.nodes[tip].log;
  }

  lemma AppendKeepsRole(ep: Endpoint, e: Event)
    ensures AppendData(ep, e).0.role == ep.role && AppendData(ep, e).0.epoch == ep.epoch
  {
    hide Decide;
  }

  lemma FenceEndsTerm(ep: Endpoint, request: Request, c: Text, previous: Digest, now: Instant)
    ensures FenceAsReplica(ep, request, c, previous, now).0.role.Active? ==> FenceAsReplica(ep, request, c, previous, now).0 == ep
  {
    hide Decide, BuildCheckpoint;
  }

  lemma FlipOpensTerm(ep: Endpoint, checkpoint: Event, ids: seq<Text>)
    ensures var after := PromoteToActive(ep, checkpoint, ids).0;
      (after.role == ep.role && after.epoch == ep.epoch) || after.epoch == checkpoint.Cursor().epoch
  {
    hide ValidReplicaIds, Configured;
  }

  lemma FlipKeepsFirstTerm(s: Cluster, n: nat, y: Text)
    requires Enabled(s, Flip(n)) && HoldsFirstTerm(Apply(s, Flip(n)), y) && s.calls[n].checkpoint.Cursor().epoch > 1
    ensures HoldsFirstTerm(s, y)
  {
    hide PromoteToActive;
    FlipOpensTerm(s.nodes[s.calls[n].candidate], s.calls[n].checkpoint, s.calls[n].request.replicaIds);
  }

  lemma WriteKeepsFirstTerm(s: Cluster, a: Action, y: Text)
    requires Enabled(s, a) && !a.Flip? && HoldsFirstTerm(Apply(s, a), y)
    ensures HoldsFirstTerm(s, y)
  {
    hide AppendData, CommitWindow, FenceAsReplica, PromoteToActive, Effective, IsCheckpoint, Resumable;
    match a
    case AppendNow(x, e) => AppendKeepsRole(s.nodes[x], e);
    case CommitDrained(x, window) => WindowKeepsRole(s.nodes[x], window);
    case Deliver(x, _, e) => AppendKeepsRole(s.nodes[x], e);
    case Fence(n, previous, now) => FenceEndsTerm(s.nodes[s.calls[n].active], FenceRequest(s, n), s.calls[n].candidate, previous, now);
    case DrainNext(n) => AppendKeepsRole(s.nodes[s.drains[n].replica], s.drains[n].waiting[0]);
    case Acknowledge(_) =>
    case StartDrain(_, _, _, _) =>
    case AbandonDrain(_) =>
    case Enqueue(_, _) =>
    case StartPromotion(_, _, _, _) =>
    case Resume(_) =>
    case Abandon(_) =>
  }

  // Nobody comes to hold the first term; it can only be given up.
  lemma StepKeepsFirstTerm(s: Cluster, a: Action, tip: Text, project: Text, y: Text)
    requires Inv(s, tip, project) && Enabled(s, a) && HoldsFirstTerm(Apply(s, a), y)
    ensures HoldsFirstTerm(s, y)
  {
    if a.Flip? {
      CheckpointsOpenLater(s, tip, project, a.call);
      hide Apply, Inv, HoldsFirstTerm;
      FlipKeepsFirstTerm(s, a.call, y);
    } else {
      hide Apply, Inv, HoldsFirstTerm, Enabled;
      WriteKeepsFirstTerm(s, a, y);
    }
  }

  lemma {:induction false} RunKeepsFirstTerm(s: Cluster, actions: seq<Action>, t: Cluster, tip: Text, project: Text, y: Text)
    requires Inv(s, tip, project) && Reaches(s, actions, t) && HoldsFirstTerm(t, y)
    ensures HoldsFirstTerm(s, y)
  {
    hide Inv, Enabled, Apply, Reaches, HoldsFirstTerm;
    if actions == [] {
      Unmoved(s, actions, t);
    } else {
      var last, earlier := actions[|actions| - 1], actions[..|actions| - 1];
      var m := LastStep(s, actions, t);
      var midTip := RunKeepsInv(s, earlier, m, tip, project);
      StepKeepsFirstTerm(m, last, midTip, project, y);
      RunKeepsFirstTerm(s, earlier, m, tip, project, y);
    }
  }

  lemma ActiveTerm(s: Cluster, tip: Text, project: Text, x: Text)
    requires Inv(s, tip, project) && x in s.nodes && s.nodes[x].role.Active?
    ensures x == tip && s.nodes[x].epoch >= 1
    ensures s.nodes[x].epoch > 1 ==> s.nodes[x].log != [] && Last(s.nodes[x].log).Cursor().epoch == s.nodes[x].epoch
  {
    if s.nodes[x].log != [] {
      Linked(project, s.nodes[x].log, |s.nodes[x].log| - 1);
    }
  }

  lemma LaterTermHasOneHolder(s: Cluster, t: Cluster, tip: Text, newTip: Text, project: Text, x: Text, y: Text)
    requires Inv(s, tip, project) && Inv(t, newTip, project) && s.nodes[tip].log <= t.nodes[newTip].log
    requires x in s.nodes && s.nodes[x].role.Active? && s.nodes[x].epoch > 1
    requires y in t.nodes && t.nodes[y].role.Active? && t.nodes[y].epoch == s.nodes[x].epoch
    ensures x == y
  {
    ActiveTerm(s, tip, project, x);
    var d := EpochHasOpening(project, s.nodes[tip].log);
    assert d in t.nodes[newTip].log;
  }

  // An epoch belongs to one endpoint for the whole run.
  lemma EpochHasOneHolder(s0: Cluster, first: Text, project: Text, actions: seq<Action>, s: Cluster, more: seq<Action>, t: Cluster, x: Text, y: Text)
    requires Initial(s0, first, project) && Reaches(s0, actions, s) && Reaches(s, more, t)
    requires x in s.nodes && s.nodes[x].role.Active?
    requires y in t.nodes && t.nodes[y].role.Active? && t.nodes[y].epoch == s.nodes[x].epoch
    ensures x == y
  {
    hide Inv, Reaches, Initial;
    var tip := ReachedInv(s0, first, project, actions, s);
    var newTip := RunKeepsInv(s, more, t, tip, project);
    ActiveTerm(s, tip, project, x);
    if s.nodes[x].epoch > 1 {
      LaterTermHasOneHolder(s, t, tip, newTip, project, x, y);
    } else {
      RunKeepsFirstTerm(s, more, t, tip, project, y);
      ActiveTerm(s, tip, project, y);
    }
  }

  // ------------------------------------------------------------ one history

  predicate Comparable(a: seq<Event>, b: seq<Event>) {
    a <= b || b <= a
  }

  lemma PrefixesComparable(a: seq<Event>, b: seq<Event>, c: seq<Event>)
    requires a <= c && b <= c
    ensures Comparable(a, b)
  {
    assert a == c[..|a|] && b == c[..|b|];
    if |a| <= |b| {
      assert b[..|a|] == a;
    } else {
      assert a[..|b|] == b;
    }
  }

  // All logs are prefixes of one history, and an active endpoint holds all of it.
  lemma OneHistory(s0: Cluster, first: Text, project: Text, actions: seq<Action>, s: Cluster)
    requires Initial(s0, first, project) && Reaches(s0, actions, s)
    ensures forall x, y :: x in s.nodes && y in s.nodes ==> Comparable(s.nodes[x].log, s.nodes[y].log)
    ensures forall x, y :: x in s.nodes && y in s.nodes && s.nodes[x].role.Active? ==> s.nodes[y].log <= s.nodes[x].log
  {
    var tip := ReachedInv(s0, first, project, actions, s);
    forall x, y | x in s.nodes && y in s.nodes ensures Comparable(s.nodes[x].log, s.nodes[y].log) {
      PrefixesComparable(s.nodes[x].log, s.nodes[y].log, s.nodes[tip].log);
    }
  }

  // With nobody active, the endpoint fenced last holds the whole history, and its head is its own fence.
  lemma FencedHoldsHistory(s0: Cluster, first: Text, project: Text, actions: seq<Action>, s: Cluster) returns (former: Text)
    requires Initial(s0, first, project) && Reaches(s0, actions, s)
    requires forall x :: x in s.nodes ==> s.nodes[x].role.Replica?
    ensures former in s.nodes && s.nodes[former].log != []
    ensures IsCheckpoint(Last(s.nodes[former].log)) && Last(s.nodes[former].log).fields.payload.former == former
    ensures forall y :: y in s.nodes ==> s.nodes[y].log <= s.nodes[former].log
  {
    former := ReachedInv(s0, first, project, actions, s);
  }

  // ----------------------------------------------------- nothing is lost

  // Every acknowledged write sits, at its own position, in the log of whoever is active later.
  lemma AcknowledgedSurvives(s0: Cluster, first: Text, project: Text, actions: seq<Action>, s: Cluster, more: seq<Action>, t: Cluster, x: Text, e: Event, c: Text)
    requires Initial(s0, first, project) && Reaches(s0, actions, s) && Reaches(s, more, t)
    requires x in s.acked && e in s.acked[x]
    requires c in t.nodes && t.nodes[c].role.Active?
    ensures x in s.nodes && e in s.nodes[x].log && s.nodes[x].log <= t.nodes[c].log
  {
    var tip := ReachedInv(s0, first, project, actions, s);
    var newTip := RunKeepsInv(s, more, t, tip, project);
    assert newTip == c;
  }

  // Once the history has left an epoch, no log ever gains an event of it: not even from a window drained before the fence.
  lemma LeftEpochIsSealed(s0: Cluster, first: Text, project: Text, actions: seq<Action>, s: Cluster, more: seq<Action>, t: Cluster, x: Text, y: Text, e: Event)
    requires Initial(s0, first, project) && Reaches(s0, actions, s) && Reaches(s, more, t)
    requires x in s.nodes && forall z :: z in s.nodes ==> s.nodes[z].log <= s.nodes[x].log
    requires y in t.nodes && e in t.nodes[y].log && e.Cursor().epoch < Head(s.nodes[x].log).epoch
    ensures e in s.nodes[x].log
  {
    var tip := ReachedInv(s0, first, project, actions, s);
    var newTip := RunKeepsInv(s, more, t, tip, project);
    assert s.nodes[tip].log == s.nodes[x].log;
    OldEpochIsInPrefix(project, t.nodes[newTip].log, s.nodes[x].log, e);
  }

  lemma OldEpochIsInPrefix(project: Text, history: seq<Event>, log: seq<Event>, e: Event)
    requires Valid(project, history) && log <= history && e in history && e.Cursor().epoch < Head(log).epoch
    ensures e in log
  {
    var k :| 0 <= k < |history| && history[k] == e;
    Linked(project, history, k);
    assert log != [] && history[|log| - 1] == Last(log);
    if k >= |log| {
      CursorsIncrease(project, history, |log| - 1, k);
    }
  }

  function FenceRequest(s: Cluster, n: nat): Request
    requires n in s.calls && s.calls[n].active in s.nodes
  {
    Effective(s.calls[n].request, s.nodes[s.calls[n].active].id, s.calls[n].candidate)
  }

  predicate Fences(s: Cluster, n: nat, previous: Digest, now: Instant, x: Text) {
    && Enabled(s, Fence(n, previous, now)) && x == s.calls[n].active
    && FenceAsReplica(s.nodes[x], FenceRequest(s, n), s.calls[n].candidate, previous, now).1.Ok?
  }

  lemma CoreNames(nodes: Nodes, tip: Text, project: Text, x: Text)
    requires Core(nodes, tip, project) && x in nodes
    ensures nodes[x].id == x
  {
  }

  // The checkpoint is the call's own.
  predicate FencedBy(s: Cluster, n: nat, x: Text, checkpoint: Event) {
    && n in s.calls && x in s.nodes && s.nodes[x].id == x && IsCheckpoint(checkpoint)
    && checkpoint.fields.payload.candidate == s.calls[n].candidate && checkpoint.fields.payload.former == x
    && checkpoint.Key() == PromotionKey(PromotionKey(s.calls[n].request.key, x, s.calls[n].candidate), x, s.calls[n].candidate)
  }

  lemma FenceOpensNext(s: Cluster, n: nat, previous: Digest, now: Instant, tip: Text, project: Text, x: Text) returns (checkpoint: Event)
    requires Inv(s, tip, project) && Fences(s, n, previous, now, x)
    ensures var u := Apply(s, Fence(n, previous, now));
      && Inv(u, x, project) && x == tip && x in u.nodes
      && u.nodes[x].log == s.nodes[x].log + [checkpoint] && checkpoint.Cursor() == Cursor(s.nodes[x].epoch + 1, 1)
    ensures FencedBy(s, n, x, checkpoint)
  {
    hide FenceAsReplica, PromotionKey, Core, Moves, RowsHeld, QueuesFit, CallsFit, AckedHeld, DrainsFit, Decide, Valid;
    checkpoint := FenceAsReplica(s.nodes[x], FenceRequest(s, n), s.calls[n].candidate, previous, now).1.value;
    InvGivesCore(s, tip, project);
    CoreNames(s.nodes, tip, project, x);
    FenceExact(s.nodes, tip, project, x, FenceRequest(s, n), s.calls[n].candidate, previous, now);
    StepFence(s, n, previous, now, tip, project);
  }

  // A fence seals the term it ends: the fenced log already holds every event of that term, for good.
  lemma FenceSealsTerm(s0: Cluster, first: Text, project: Text, actions: seq<Action>, s: Cluster, n: nat, previous: Digest, now: Instant,
                       x: Text, more: seq<Action>, t: Cluster, y: Text, e: Event)
    requires Initial(s0, first, project) && Reaches(s0, actions, s)
    requires Fences(s, n, previous, now, x) && Reaches(Apply(s, Fence(n, previous, now)), more, t)
    requires y in t.nodes && e in t.nodes[y].log && e.Cursor().epoch <= s.nodes[x].epoch
    ensures e in s.nodes[x].log
  {
    hide Inv, Apply, Enabled;
    var tip := ReachedInv(s0, first, project, actions, s);
    var u := Apply(s, Fence(n, previous, now));
    var checkpoint := FenceOpensNext(s, n, previous, now, tip, project, x);
    var newTip := RunKeepsInv(u, more, t, x, project);
    InvGivesCore(t, newTip, project);
    assert Last(u.nodes[x].log) == checkpoint;
    OldEpochIsInPrefix(project, t.nodes[newTip].log, u.nodes[x].log, e);
  }

  lemma InvGivesCore(s: Cluster, tip: Text, project: Text)
    requires Inv(s, tip, project)
    ensures Core(s.nodes, tip, project)
  {
  }

  // --------------------------------------------------------------- delivery

  predicate Waits(ep: Endpoint, r: Text, e: Event) {
    e.Id() in RowsOf(ep.outbox, r) && RowsOf(ep.outbox, r)[e.Id()] == e
  }

  // Replica r has e, or e still waits for it in x's outbox.
  predicate Covered(s: Cluster, x: Text, r: Text, e: Event) {
    && x in s.nodes && r in s.nodes && e in s.nodes[x].log
    && (Waits(s.nodes[x], r, e) || e in s.nodes[r].log)
  }

  predicate RowKept(before: Endpoint, after: Endpoint, r: Text, e: Event) {
    Waits(before, r, e) ==> Waits(after, r, e)
  }

  lemma AppendKeepsRows(ep: Endpoint, d: Event, r: Text, e: Event)
    requires Sound(ep) && e in ep.log
    ensures RowKept(ep, AppendData(ep, d).0, r, e)
  {
    DecideExact(ep.project, ep.log, d);
    if Decide(ep.project, ep.log, d) == Commit {
      assert !HasId(ep.log, d.Id());
      var i :| 0 <= i < |ep.log| && ep.log[i] == e;
      assert ep.log[i].Id() != d.Id();
    }
  }

  lemma {:induction false} WindowKeepsRows(ep: Endpoint, window: seq<Event>, r: Text, e: Event)
    requires Sound(ep) && e in ep.log
    ensures RowKept(ep, CommitWindow(ep, window).0, r, e)
    ensures Sound(CommitWindow(ep, window).0) && e in CommitWindow(ep, window).0.log
  {
    if window != [] {
      WindowKeepsRows(ep, Init(window), r, e);
      var before := CommitWindow(ep, Init(window)).0;
      AppendKeepsRows(before, Last(window), r, e);
      AppendDataSound(before, Last(window));
    }
  }

  // Acknowledging removes rows of events the replica holds, and no other.
  lemma AckKeepsRows(ep: Endpoint, q: Text, events: set<Event>, held: seq<Event>, r: Text, e: Event)
    requires Sound(ep) && e in ep.log && forall d :: d in events ==> d in ep.log && d in held
    ensures RowKept(ep, AckOutbox(ep, q, IdsOf(events)), r, e) || (r == q && e in held)
  {
    if d :| d in events && d.Id() == e.Id() {
      OneEventPerId(ep.project, ep.log, d, e);
    }
  }

  lemma OneEventPerId(project: Text, log: seq<Event>, d: Event, e: Event)
    requires Valid(project, log) && d in log && e in log && d.Id() == e.Id()
    ensures d == e
  {
    var i :| 0 <= i < |log| && log[i] == d;
    var j :| 0 <= j < |log| && log[j] == e;
    if i < j { LaterIsFresh(project, log, i, j); }
    if j < i { LaterIsFresh(project, log, j, i); }
  }

  // In every reachable cluster, whatever else runs, an acknowledgement removes the row of an event only if the replica it
  // was waiting for holds that very event.
  lemma AcknowledgeIsHonest(s0: Cluster, first: Text, project: Text, actions: seq<Action>, s: Cluster, n: nat, x: Text, r: Text, e: Event)
    requires Initial(s0, first, project) && Reaches(s0, actions, s) && Enabled(s, Acknowledge(n))
    requires x in s.nodes && Waits(s.nodes[x], r, e) && !Waits(Apply(s, Acknowledge(n)).nodes[x], r, e)
    ensures x == s.drains[n].node && r == s.drains[n].replica && r in s.nodes && e in s.nodes[r].log
  {
    hide Inv, AckOutbox, Sound, RowsHeld, Reaches;
    var tip := ReachedInv(s0, first, project, actions, s);
    DrainIsFit(s, n, tip, project);
    RowsAreEvents(s, x, r, tip, project);
    InvGivesCore(s, tip, project);
    NodeSound(s.nodes, tip, project, x);
    var d := s.drains[n];
    if x == d.node {
      AckKeepsRows(s.nodes[x], d.replica, d.applied, s.nodes[d.replica].log, r, e);
    }
  }

  lemma FenceKeepsRows(ep: Endpoint, request: Request, c: Text, previous: Digest, now: Instant, r: Text, e: Event)
    requires Sound(ep) && e in ep.log
    ensures RowKept(ep, FenceAsReplica(ep, request, c, previous, now).0, r, e)
  {
    var built := BuildCheckpoint(ep.project, ep.id, c, request, previous, ep.epoch + 1, now);
    if built.Ok? {
      AppendKeepsRows(ep, built.value, r, e);
    }
  }

  lemma FlipKeepsRows(ep: Endpoint, checkpoint: Event, ids: seq<Text>, r: Text, e: Event)
    ensures RowKept(ep, PromoteToActive(ep, checkpoint, ids).0, r, e)
  {
  }

  lemma WriteKeepsRow(s: Cluster, a: Action, x: Text, r: Text, e: Event)
    requires Enabled(s, a) && (a.AppendNow? || a.CommitDrained? || a.Deliver? || a.DrainNext?)
    requires x in s.nodes && Sound(s.nodes[x]) && e in s.nodes[x].log
    ensures x in Apply(s, a).nodes && RowKept(s.nodes[x], Apply(s, a).nodes[x], r, e)
  {
    hide Sound, AppendData, RowKept, CommitWindow;
    RowUnchanged(s.nodes[x], r, e);
    match a
    case AppendNow(y, d) => AppendKeepsRows(s.nodes[x], d, r, e);
    case CommitDrained(y, window) => WindowKeepsRows(s.nodes[x], window, r, e);
    case Deliver(y, z, d) => AppendKeepsRows(s.nodes[x], d, r, e);
    case DrainNext(n) => AppendKeepsRows(s.nodes[x], s.drains[n].waiting[0], r, e);
  }

  lemma PromotionKeepsRow(s: Cluster, a: Action, x: Text, r: Text, e: Event)
    requires Enabled(s, a) && (a.Fence? || a.Flip?)
    requires x in s.nodes && Sound(s.nodes[x]) && e in s.nodes[x].log
    ensures x in Apply(s, a).nodes && RowKept(s.nodes[x], Apply(s, a).nodes[x], r, e)
  {
    hide Sound, AppendData, RowKept, FenceAsReplica, PromoteToActive, Effective;
    RowUnchanged(s.nodes[x], r, e);
    match a
    case Fence(n, previous, now) => FenceKeepsRows(s.nodes[x], FenceRequest(s, n), s.calls[n].candidate, previous, now, r, e);
    case Flip(n) => FlipKeepsRows(s.nodes[x], s.calls[n].checkpoint, s.calls[n].request.replicaIds, r, e);
  }

  lemma AckKeepsRow(s: Cluster, n: nat, x: Text, r: Text, e: Event)
    requires Enabled(s, Acknowledge(n)) && DrainFits(s.nodes, s.drains[n])
    requires x in s.nodes && r in s.nodes && Sound(s.nodes[x]) && e in s.nodes[x].log
    ensures var t := Apply(s, Acknowledge(n));
      x in t.nodes && (RowKept(s.nodes[x], t.nodes[x], r, e) || e in s.nodes[r].log)
  {
    hide Sound, RowKept, AckOutbox;
    RowUnchanged(s.nodes[x], r, e);
    var d := s.drains[n];
    if d.node == x {
      AckKeepsRows(s.nodes[x], d.replica, d.applied, s.nodes[d.replica].log, r, e);
    }
  }

  lemma StepKeepsRow(s: Cluster, a: Action, tip: Text, project: Text, x: Text, r: Text, e: Event)
    requires Inv(s, tip, project) && Enabled(s, a) && x in s.nodes && r in s.nodes && e in s.nodes[x].log
    ensures x in Apply(s, a).nodes
    ensures RowKept(s.nodes[x], Apply(s, a).nodes[x], r, e) || e in s.nodes[r].log
  {
    hide Inv, Core, Sound, RowKept;
    InvGivesCore(s, tip, project);
    NodeSound(s.nodes, tip, project, x) by { LedFromCore(s.nodes, tip, project); }
    if a.AppendNow? || a.CommitDrained? || a.Deliver? || a.DrainNext? {
      hide Apply, Enabled;
      WriteKeepsRow(s, a, x, r, e);
    } else if a.Fence? || a.Flip? {
      hide Apply, Enabled;
      PromotionKeepsRow(s, a, x, r, e);
    } else if a.Acknowledge? {
      DrainIsFit(s, a.drain, tip, project);
      hide Apply, Enabled;
      AckKeepsRow(s, a.drain, x, r, e);
    } else {
      RowUnchanged(s.nodes[x], r, e);
    }
  }

  lemma RowUnchanged(ep: Endpoint, r: Text, e: Event)
    ensures RowKept(ep, ep, r, e)
  {
  }

  lemma StepKeepsCovered(s: Cluster, a: Action, tip: Text, project: Text, x: Text, r: Text, e: Event)
    requires Inv(s, tip, project) && Enabled(s, a) && Covered(s, x, r, e)
    ensures Covered(Apply(s, a), x, r, e)
  {
    hide Inv, Enabled, Apply;
    var newTip := StepKeepsInv(s, a, tip, project);
    StepFactsSay(s, Apply(s, a), tip, newTip, project);
    StepKeepsRow(s, a, tip, project, x, r, e);
  }

  // A commit queues its event for every replica configured at that moment.
  lemma {:induction false} WindowCovers(ep: Endpoint, window: seq<Event>, r: Text, e: Event)
    requires Sound(ep) && r in ep.replicas && e !in ep.log && e in CommitWindow(ep, window).0.log
    ensures Waits(CommitWindow(ep, window).0, r, e)
  {
    if window != [] {
      WindowKeeps(ep, Init(window));
      var before := CommitWindow(ep, Init(window)).0;
      if e in before.log {
        WindowCovers(ep, Init(window), r, e);
        AppendKeepsRows(before, Last(window), r, e);
      }
    }
  }

  lemma {:induction false} WindowKeeps(ep: Endpoint, window: seq<Event>)
    requires Sound(ep)
    ensures Sound(CommitWindow(ep, window).0) && CommitWindow(ep, window).0.replicas == ep.replicas
  {
    if window != [] {
      WindowKeeps(ep, Init(window));
      AppendDataSound(CommitWindow(ep, Init(window)).0, Last(window));
    }
  }

  lemma AppendCovers(ep: Endpoint, d: Event, r: Text, e: Event)
    requires r in ep.replicas && e !in ep.log && e in AppendData(ep, d).0.log
    ensures Waits(AppendData(ep, d).0, r, e)
  {
  }

  lemma StepCovers(s: Cluster, a: Action, x: Text, r: Text, e: Event)
    requires Enabled(s, a) && x in s.nodes && x in Apply(s, a).nodes && Sound(s.nodes[x])
    requires r in s.nodes[x].replicas && e !in s.nodes[x].log && e in Apply(s, a).nodes[x].log
    ensures Waits(Apply(s, a).nodes[x], r, e)
  {
    hide AppendData, Sound, Waits;
    match a
    case AppendNow(y, d) => AppendCovers(s.nodes[x], d, r, e);
    case Deliver(y, z, d) => AppendCovers(s.nodes[x], d, r, e);
    case DrainNext(n) => AppendCovers(s.nodes[x], s.drains[n].waiting[0], r, e);
    case CommitDrained(y, window) => WindowCovers(s.nodes[x], window, r, e);
    case Fence(n, previous, now) =>
      var call := s.calls[n];
      FenceCovers(s.nodes[x], FenceRequest(s, n), call.candidate, previous, now, r, e);
    case Enqueue(_, _) =>
    case Acknowledge(_) =>
    case StartDrain(_, _, _, _) =>
    case AbandonDrain(_) =>
    case StartPromotion(_, _, _, _) =>
    case Resume(_) =>
    case Flip(_) =>
    case Abandon(_) =>
  }

  lemma FenceCovers(ep: Endpoint, request: Request, c: Text, previous: Digest, now: Instant, r: Text, e: Event)
    requires r in ep.replicas && e !in ep.log && e in FenceAsReplica(ep, request, c, previous, now).0.log
    ensures Waits(FenceAsReplica(ep, request, c, previous, now).0, r, e)
  {
  }

  // Delivery is never dropped: no mix of drains, crashes, repeats, acknowledgements and promotions uncovers an event.
  lemma {:induction false} RunKeepsCovered(s: Cluster, actions: seq<Action>, t: Cluster, tip: Text, project: Text, x: Text, r: Text, e: Event)
    requires Inv(s, tip, project) && Reaches(s, actions, t) && Covered(s, x, r, e)
    ensures Covered(t, x, r, e)
  {
    hide Inv, Enabled, Apply, Covered, Reaches;
    if actions == [] {
      Unmoved(s, actions, t);
    } else {
      var last, earlier := actions[|actions| - 1], actions[..|actions| - 1];
      var m := LastStep(s, actions, t);
      var midTip := RunKeepsInv(s, earlier, m, tip, project);
      RunKeepsCovered(s, earlier, m, tip, project, x, r, e);
      StepKeepsCovered(m, last, midTip, project, x, r, e);
    }
  }

  // An event committed by any step on x while r is configured there is, at every later point, still waiting or delivered.
  lemma DeliveryNeverDropped(s0: Cluster, first: Text, project: Text, actions: seq<Action>, s: Cluster, a: Action, u: Cluster,
                             more: seq<Action>, t: Cluster, x: Text, r: Text, e: Event)
    requires Initial(s0, first, project) && Reaches(s0, actions, s) && Reaches(s, [a], u) && Reaches(u, more, t)
    requires x in s.nodes && r in s.nodes && r in s.nodes[x].replicas
    requires e !in s.nodes[x].log && x in u.nodes && e in u.nodes[x].log
    ensures Covered(t, x, r, e)
  {
    hide Inv, Enabled, Apply, Reaches;
    var tip := ReachedInv(s0, first, project, actions, s);
    var m := LastStep(s, [a], u);
    Unmoved(s, [a][..0], m);
    InvGivesCore(s, tip, project);
    NodeSound(s.nodes, tip, project, x);
    StepCovers(s, a, x, r, e);
    var newTip := StepKeepsInv(s, a, tip, project);
    StepFactsSay(s, u, tip, newTip, project);
    RunKeepsCovered(u, more, t, newTip, project, x, r, e);
  }
}
