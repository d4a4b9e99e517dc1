/** Every endpoint of one project, every write path into them, and every promotion call in flight, interleaved freely. */
module Clusters {
  import opened Events
  import opened Chain
  import opened Endpoints
  import Runs

  // One Promote call: before and after its fencing step. A call that stops anywhere simply takes no more steps.
  datatype Call =
    | Asked(active: Text, candidate: Text, request: Request)
    | Holding(active: Text, candidate: Text, request: Request, checkpoint: Event)

  // One DrainOutbox call: the rows it read and has still to deliver, and the events that went in. A call that stops anywhere,
  // or whose acknowledgement fails, simply takes no more steps; any number of calls may drain the same rows at once.
  datatype Drain = Drain(node: Text, replica: Text, waiting: seq<Event>, applied: set<Event>)

  datatype Cluster = Cluster(
    nodes: map<Text, Endpoint>,
    queued: map<Text, set<Event>>, // accepted into a batch window of that endpoint; it may still be committed, once or more
    acked: map<Text, set<Event>>,  // Append returned nil for it on that endpoint
    calls: map<nat, Call>,
    drains: map<nat, Drain>)

  datatype Action =
    | AppendNow(node: Text, event: Event)
    | Enqueue(node: Text, event: Event)
    | CommitDrained(node: Text, window: seq<Event>)
    | Deliver(node: Text, source: Text, event: Event)
    | StartDrain(drain: nat, node: Text, replica: Text, rows: seq<Event>)
    | DrainNext(drain: nat)
    | Acknowledge(drain: nat)
    | AbandonDrain(drain: nat)
    | StartPromotion(call: nat, active: Text, candidate: Text, request: Request)
    | Fence(call: nat, previous: Digest, now: Instant)
    | Resume(call: nat)
    | Flip(call: nat)
    | Abandon(call: nat)

  predicate IsCheckpoint(e: Event) {
    e.fields.payload.Promotion?
  }

  // What the guards of the code and the reads before a step establish. Domain writers emit no promotion events.
  predicate Enabled(s: Cluster, a: Action) {
    match a
    case AppendNow(x, e) => x in s.nodes && !IsCheckpoint(e)
    case Enqueue(x, e) =>
      x in s.nodes && x in s.queued && !IsCheckpoint(e) && s.nodes[x].role.Active? && e.Cursor().epoch == s.nodes[x].epoch
    case CommitDrained(x, window) => x in s.nodes && x in s.queued && forall e :: e in window ==> e in s.queued[x]
    case Deliver(x, y, e) => x in s.nodes && y in s.nodes && e in s.nodes[y].log
    case StartDrain(n, x, r, rows) =>
      && x in s.nodes && r in s.nodes
      && (forall e :: e in rows ==> e in RowsOf(s.nodes[x].outbox, r).Values)
      && (forall e :: e in RowsOf(s.nodes[x].outbox, r).Values ==> e in rows)
    case DrainNext(n) => n in s.drains && s.drains[n].waiting != [] && s.drains[n].replica in s.nodes
    case Acknowledge(n) => n in s.drains && s.drains[n].waiting == [] && s.drains[n].node in s.nodes
    case AbandonDrain(n) => n in s.drains
    case StartPromotion(n, x, c, request) => x in s.nodes && c in s.nodes
    case Fence(n, previous, now) => n in s.calls && s.calls[n].Asked? && s.calls[n].active in s.nodes
    case Resume(n) =>
      && n in s.calls && s.calls[n].Asked? && s.calls[n].active in s.nodes
      && Resumable(s.nodes[s.calls[n].active], s.calls[n].candidate, s.calls[n].request)
    case Flip(n) => n in s.calls && s.calls[n].Holding? && s.calls[n].candidate in s.nodes
    case Abandon(n) => n in s.calls
  }

  // The head event is this very promotion's checkpoint.
  predicate Resumable(active: Endpoint, candidate: Text, request: Request) {
    && active.log != [] && IsCheckpoint(Last(active.log))
    && Last(active.log).Key() == Trim(PromotionKey(request.key, active.id, candidate))
    && Last(active.log).fields.payload.candidate == candidate
  }

  function Committed(window: seq<Event>, results: seq<Option<Error>>): set<Event>
    requires |window| == |results|
  {
    set i | 0 <= i < |window| && results[i].None? :: window[i]
  }

  function Of(m: map<Text, set<Event>>, x: Text): set<Event> {
    if x in m then m[x] else {}
  }

  function IdsOf(events: set<Event>): set<Text> {
    set e | e in events :: e.Id()
  }

  // A refusal ends the delivery; what went in before it is still acknowledged.
  function Drained(d: Drain, failure: Option<Error>): Drain
    requires d.waiting != []
  {
    if failure.Some? then d.(waiting := []) else d.(waiting := d.waiting[1..], applied := d.applied + {d.waiting[0]})
  }

  function Apply(s: Cluster, a: Action): Cluster
    requires Enabled(s, a)
  {
    match a
    case AppendNow(x, e) =>
      var (after, failure) := Append(s.nodes[x], e);
      s.(nodes := s.nodes[x := after], acked := s.acked[x := Of(s.acked, x) + if failure.None? then {e} else {}])
    case Enqueue(x, e) => s.(queued := s.queued[x := s.queued[x] + {e}])
    case CommitDrained(x, window) =>
      var (after, results) := CommitWindow(s.nodes[x], window);
      s.(nodes := s.nodes[x := after], acked := s.acked[x := Of(s.acked, x) + Committed(window, results)])
    case Deliver(x, y, e) => s.(nodes := s.nodes[x := Ingest(s.nodes[x], e).0])
    case StartDrain(n, x, r, rows) => s.(drains := s.drains[n := Drain(x, r, rows, {})])
    case DrainNext(n) =>
      var (after, failure) := Ingest(s.nodes[s.drains[n].replica], s.drains[n].waiting[0]);
      s.(nodes := s.nodes[s.drains[n].replica := after], drains := s.drains[n := Drained(s.drains[n], failure)])
    case Acknowledge(n) =>
      var d := s.drains[n];
      s.(nodes := s.nodes[d.node := AckOutbox(s.nodes[d.node], d.replica, IdsOf(d.applied))], drains := s.drains - {n})
    case AbandonDrain(n) => s.(drains := s.drains - {n})
    case StartPromotion(n, x, c, request) => s.(calls := s.calls[n := Asked(x, c, request)])
    case Fence(n, previous, now) =>
      var call := s.calls[n];
      var request := Effective(call.request, s.nodes[call.active].id, call.candidate);
      var (after, r) := FenceAsReplica(s.nodes[call.active], request, call.candidate, previous, now);
      s.(nodes := s.nodes[call.active := after],
         calls := if r.Ok? then s.calls[n := Holding(call.active, call.candidate, call.request, r.value)] else s.calls - {n})
    case Resume(n) =>
      var call := s.calls[n];
      s.(calls := s.calls[n := Holding(call.active, call.candidate, call.request, Last(s.nodes[call.active].log))])
    case Flip(n) =>
      var call := s.calls[n];
      s.(nodes := s.nodes[call.candidate := PromoteToActive(s.nodes[call.candidate], call.checkpoint, call.request.replicaIds).0])
    case Abandon(n) => s.(calls := s.calls - {n})
  }

  ghost predicate Step(s: Cluster, a: Action, t: Cluster) {
    Enabled(s, a) && t == Apply(s, a)
  }

  ghost predicate Reaches(s: Cluster, actions: seq<Action>, t: Cluster) {
    Runs.Leads(Step, s, actions, t)
  }

  lemma Unmoved(s: Cluster, actions: seq<Action>, t: Cluster)
    requires Reaches(s, actions, t) && actions == []
    ensures s == t
  {
    Runs.NoSteps(Step, s, actions, t);
  }

  lemma LastStep(s: Cluster, actions: seq<Action>, t: Cluster) returns (m: Cluster)
    requires Reaches(s, actions, t) && actions != []
    ensures Reaches(s, actions[..|actions| - 1], m) && Enabled(m, actions[|actions| - 1]) && t == Apply(m, actions[|actions| - 1])
  {
    m := Runs.LastStep(Step, s, actions, t);
  }

  lemma OneMoreStep(s: Cluster, actions: seq<Action>, n: nat, m: Cluster)
    requires n < |actions| && Reaches(s, actions[..n], m) && Enabled(m, actions[n])
    ensures Reaches(s, actions[..n + 1], Apply(m, actions[n]))
  {
    assert actions[..n + 1] == actions[..n] + [actions[n]];
    Runs.OneMore(Step, s, actions[..n], m, actions[n], Apply(m, actions[n]));
  }

  lemma NoStepYet(s: Cluster)
    ensures Reaches(s, [], s)
  {
    Runs.NoStepsYet(Step, s);
  }

  // --------------------------------------------------------- the invariant

  predicate Initial(s: Cluster, active: Text, project: Text) {
    && active in s.nodes && s.nodes[active].role.Active? && s.nodes[active].epoch == 1
    && (forall x :: x in s.nodes ==>
         s.nodes[x].id == x && s.nodes[x].project == project && s.nodes[x].log == []
         && (forall r :: r in s.nodes[x].outbox ==> s.nodes[x].outbox[r] == map[])
         && (x != active ==> s.nodes[x].role.Replica?))
    && (forall x :: x in s.queued ==> s.queued[x] == {})
    && (forall x :: x in s.acked ==> s.acked[x] == {})
    && s.calls == map[] && s.drains == map[]
  }

  type Nodes = map<Text, Endpoint>

  // One endpoint, the tip, holds the longest history; every other log is a prefix of it; only the tip may be active.
  ghost predicate Led(nodes: Nodes, tip: Text, project: Text) {
    && tip in nodes && Valid(project, nodes[tip].log)
    && (forall x :: x in nodes ==> nodes[x].id == x && nodes[x].project == project && nodes[x].log <= nodes[tip].log)
    && (forall x :: x in nodes && nodes[x].role.Active? ==> x == tip)
  }

  // Checkpoints are exactly the events that open an epoch after the first.
  predicate EpochsOpenByCheckpoint(log: seq<Event>) {
    forall e :: e in log ==> (IsCheckpoint(e) <==> e.Cursor().epoch > 1 && e.Cursor().sequence == 1)
  }

  // An active tip writes at its head's epoch, which some checkpoint granted to it; a fenced tip ends in its own fence.
  predicate Entitled(tip: Endpoint) {
    match tip.role
    case Active =>
      && tip.epoch == (if tip.log == [] then 1 else Last(tip.log).Cursor().epoch)
      && forall e :: e in tip.log && IsCheckpoint(e) && e.Cursor().epoch == tip.epoch ==> e.fields.payload.candidate == tip.id
    case Replica =>
      tip.log != [] && IsCheckpoint(Last(tip.log)) && Last(tip.log).fields.payload.former == tip.id
  }

  // Whoever a superseded checkpoint named has gone past it.
  predicate MovedOn(nodes: Nodes, history: seq<Event>) {
    forall i :: 0 <= i < |history| && IsCheckpoint(history[i]) ==>
      var c := history[i].fields.payload.candidate;
      c in nodes && (i < |history| - 1 ==> |nodes[c].log| >= i + 2)
  }

  ghost predicate Core(nodes: Nodes, tip: Text, project: Text) {
    && Led(nodes, tip, project)
    && EpochsOpenByCheckpoint(nodes[tip].log)
    && Entitled(nodes[tip])
    && MovedOn(nodes, nodes[tip].log)
  }

  // A queued event belongs to its endpoint's current term or to one already closed by a fence.
  predicate QueueFits(ep: Endpoint, e: Event) {
    && !IsCheckpoint(e)
    && ((ep.role.Active? && e.Cursor().epoch == ep.epoch) || e.Cursor().epoch < Head(ep.log).epoch)
  }

  predicate CallFits(nodes: Nodes, call: Call) {
    && call.active in nodes && call.candidate in nodes
    && (call.Holding? ==>
          && call.checkpoint in nodes[call.active].log && IsCheckpoint(call.checkpoint)
          && call.checkpoint.fields.payload.candidate == call.candidate)
  }

  predicate QueuesFit(nodes: Nodes, queued: map<Text, set<Event>>) {
    forall x, e :: x in queued && e in queued[x] ==> x in nodes && QueueFits(nodes[x], e)
  }

  predicate AckedHeld(nodes: Nodes, acked: map<Text, set<Event>>) {
    forall x, e :: x in acked && e in acked[x] ==> x in nodes && e in nodes[x].log
  }

  predicate CallsFit(nodes: Nodes, calls: map<nat, Call>) {
    forall n :: n in calls ==> CallFits(nodes, calls[n])
  }

  // What a drain has read comes from its endpoint's log, and what it will acknowledge is in the replica's.
  predicate DrainFits(nodes: Nodes, d: Drain) {
    && d.node in nodes && d.replica in nodes
    && (forall e :: e in d.waiting ==> e in nodes[d.node].log)
    && (forall e :: e in d.applied ==> e in nodes[d.node].log && e in nodes[d.replica].log)
  }

  predicate DrainsFit(nodes: Nodes, drains: map<nat, Drain>) {
    forall n :: n in drains ==> DrainFits(nodes, drains[n])
  }

  ghost predicate OutboxesHeld(nodes: Nodes) {
    forall x :: x in nodes ==> RowsHeld(nodes[x])
  }

  ghost predicate Inv(s: Cluster, tip: Text, project: Text) {
    && Core(s.nodes, tip, project)
    && QueuesFit(s.nodes, s.queued) && AckedHeld(s.nodes, s.acked) && CallsFit(s.nodes, s.calls)
    && OutboxesHeld(s.nodes) && DrainsFit(s.nodes, s.drains)
  }

  lemma InitialInv(s: Cluster, active: Text, project: Text)
    requires Initial(s, active, project)
    ensures Inv(s, active, project)
  {
  }

  // ------------------------------------------------- what one step can do

  // A node's endpoint changes without touching its log, role or epoch.
  lemma CoreKeepsOutbox(nodes: Nodes, tip: Text, project: Text, x: Text, ep: Endpoint)
    requires Core(nodes, tip, project) && x in nodes
    requires ep == nodes[x].(outbox := ep.outbox, replicas := ep.replicas)
    ensures Core(nodes[x := ep], tip, project)
  {
  }

  // The active tip commits a domain event of its own epoch.
  lemma CoreTipAppends(nodes: Nodes, tip: Text, project: Text, e: Event)
    requires Core(nodes, tip, project) && nodes[tip].role.Active?
    requires !IsCheckpoint(e) && e.Cursor().epoch == nodes[tip].epoch
    requires Decide(project, nodes[tip].log, e) == Commit
    ensures Core(nodes[tip := AppendData(nodes[tip], e).0], tip, project)
  {
    var log := nodes[tip].log;
    ValidExtend(project, log, e);
    assert Last(log + [e]) == e;
    DecideExact(project, log, e);
  }

  // A replica takes an event of the common history: nothing, or exactly the next one.
  lemma FollowerStays(nodes: Nodes, tip: Text, project: Text, x: Text, e: Event)
    requires Led(nodes, tip, project) && x in nodes && e in nodes[tip].log
    ensures AppendData(nodes[x], e).0.log <= nodes[tip].log
  {
    var history, n := nodes[tip].log, |nodes[x].log|;
    assert nodes[x].log == history[..n];
    if Decide(project, history[..n], e) == Commit {
      CommitFollowsHistory(project, history, n, e);
    }
  }

  lemma CoreFollows(nodes: Nodes, tip: Text, project: Text, x: Text, ep: Endpoint)
    requires Core(nodes, tip, project) && x in nodes
    requires ep == nodes[x].(log := ep.log, outbox := ep.outbox) && nodes[x].log <= ep.log <= nodes[tip].log
    ensures Core(nodes[x := ep], tip, project)
  {
    hide Valid;
    if x == tip {
      assert ep.log == nodes[tip].log;
    }
  }

  lemma CoreDelivers(nodes: Nodes, tip: Text, project: Text, x: Text, e: Event)
    requires Core(nodes, tip, project) && x in nodes && e in nodes[tip].log
    ensures Core(nodes[x := Ingest(nodes[x], e).0], tip, project)
  {
    hide Decide, Core;
    FollowerStays(nodes, tip, project, x, e) by { LedFromCore(nodes, tip, project); }
    NodeSound(nodes, tip, project, x) by { LedFromCore(nodes, tip, project); }
    AppendDataSound(nodes[x], e);
    CoreFollows(nodes, tip, project, x, Ingest(nodes[x], e).0);
  }

  lemma LedFromCore(nodes: Nodes, tip: Text, project: Text)
    requires Core(nodes, tip, project)
    ensures Led(nodes, tip, project)
  {
  }

  // An event of an epoch the log has left behind never commits.
  lemma StaleNeverCommits(project: Text, log: seq<Event>, e: Event)
    requires Valid(project, log) && e.Cursor().epoch < Head(log).epoch
    ensures Decide(project, log, e) != Commit
  {
    DecideExact(project, log, e);
    if log != [] {
      Linked(project, log, |log| - 1);
    }
  }

  // Fencing appends the one checkpoint of the next epoch and leaves no active endpoint, or changes nothing.
  lemma FenceExact(nodes: Nodes, tip: Text, project: Text, x: Text, request: Request, c: Text, previous: Digest, now: Instant)
    requires Core(nodes, tip, project) && x in nodes
    ensures var (after, r) := FenceAsReplica(nodes[x], request, c, previous, now);
      && (r.Err? ==> after == nodes[x])
      && (r.Ok? ==>
           && x == tip && nodes[x].role.Active? && after.role.Replica?
           && after.log == nodes[x].log + [r.value] && Decide(project, nodes[x].log, r.value) == Commit
           && after == nodes[x].(role := Replica, epoch := nodes[x].epoch + 1, log := after.log, outbox := after.outbox)
           && r.value.Cursor() == Cursor(nodes[x].epoch + 1, 1) && nodes[x].log != []
           && IsCheckpoint(r.value) && r.value.fields.payload.candidate == c && r.value.fields.payload.former == x
           && r.value.Key() == PromotionKey(request.key, x, c))
  {
    hide PromotionKey;
    var (after, r) := FenceAsReplica(nodes[x], request, c, previous, now);
    if r.Ok? {
      var log := nodes[x].log;
      DecideExact(project, log, r.value);
      if r.value in log {
        EpochBound(project, log, r.value);
      }
    }
  }

  lemma EpochBound(project: Text, log: seq<Event>, e: Event)
    requires Valid(project, log) && e in log
    ensures e.Cursor().epoch <= Last(log).Cursor().epoch
  {
    var i :| 0 <= i < |log| && log[i] == e;
    if i < |log| - 1 {
      CursorsIncrease(project, log, i, |log| - 1);
    }
  }

  lemma CoreFences(nodes: Nodes, tip: Text, project: Text, request: Request, c: Text, previous: Digest, now: Instant)
    requires Core(nodes, tip, project) && c in nodes
    requires FenceAsReplica(nodes[tip], request, c, previous, now).1.Ok?
    ensures Core(nodes[tip := FenceAsReplica(nodes[tip], request, c, previous, now).0], tip, project)
  {
    FenceExact(nodes, tip, project, tip, request, c, previous, now);
    var (after, r) := FenceAsReplica(nodes[tip], request, c, previous, now);
    ValidExtend(project, nodes[tip].log, r.value);
    assert Last(after.log) == r.value;
    assert Led(nodes[tip := after], tip, project);
    LastCheckpointIsCurrent(nodes, tip, project);
  }

  // If the tip's log ends in a checkpoint and the tip is active, that checkpoint named the tip.
  lemma LastCheckpointIsCurrent(nodes: Nodes, tip: Text, project: Text)
    requires Core(nodes, tip, project) && nodes[tip].role.Active?
    ensures nodes[tip].log != [] && IsCheckpoint(Last(nodes[tip].log)) ==> Last(nodes[tip].log).fields.payload.candidate == tip
  {
    if nodes[tip].log != [] {
      assert Last(nodes[tip].log) in nodes[tip].log;
    }
  }

  // A prefix of the history whose head hash is a checkpoint's ends in that checkpoint.
  lemma EndsIn(project: Text, history: seq<Event>, n: nat, checkpoint: Event)
    requires Valid(project, history) && n <= |history| && checkpoint in history && HeadHash(history[..n]) == checkpoint.checksum
    ensures n > 0 && history[n - 1] == checkpoint
  {
    var k :| 0 <= k < |history| && history[k] == checkpoint;
    Linked(project, history, k);
    assert history[n - 1].checksum == history[k].checksum;
    SameChecksumSameHistory(project, history, n - 1, project, history, k);
  }

  // A replica flips only when its head is the newest checkpoint of the whole history, and it is the one named there.
  lemma FlipNeedsNewest(nodes: Nodes, tip: Text, project: Text, c: Text, checkpoint: Event)
    requires Core(nodes, tip, project) && c in nodes && nodes[c].role.Replica?
    requires checkpoint in nodes[tip].log && IsCheckpoint(checkpoint) && checkpoint.fields.payload.candidate == c
    requires HeadHash(nodes[c].log) == checkpoint.checksum
    ensures nodes[c].log == nodes[tip].log && nodes[c].log != [] && Last(nodes[c].log) == checkpoint
    ensures forall x :: x in nodes ==> nodes[x].role.Replica?
  {
    hide Decide, Valid, EpochsOpenByCheckpoint;
    var history, n := nodes[tip].log, |nodes[c].log|;
    assert nodes[c].log == history[..n];
    EndsIn(project, history, n, checkpoint);
    assert n == |history|;
    if nodes[tip].role.Active? {
      LastCheckpointIsCurrent(nodes, tip, project);
    }
  }

  lemma CoreFlips(nodes: Nodes, tip: Text, project: Text, c: Text, checkpoint: Event, ids: seq<Text>) returns (newTip: Text)
    requires Core(nodes, tip, project) && c in nodes
    requires checkpoint in nodes[tip].log && IsCheckpoint(checkpoint) && checkpoint.fields.payload.candidate == c
    ensures Core(nodes[c := PromoteToActive(nodes[c], checkpoint, ids).0], newTip, project)
    ensures nodes[tip].log == nodes[c := PromoteToActive(nodes[c], checkpoint, ids).0][newTip].log
  {
    hide Decide;
    var after := PromoteToActive(nodes[c], checkpoint, ids).0;
    newTip := tip;
    if nodes[c].role.Replica? && after.role.Active? {
      FlipNeedsNewest(nodes, tip, project, c, checkpoint);
      newTip := c;
      assert nodes[c].log == nodes[tip].log;
      CheckpointUnique(project, nodes[c].log, checkpoint);
    } else {
      CoreKeepsOutbox(nodes, tip, project, c, after);
    }
  }

  // One checkpoint per epoch.
  lemma CheckpointUnique(project: Text, log: seq<Event>, checkpoint: Event)
    requires Valid(project, log) && EpochsOpenByCheckpoint(log) && checkpoint in log && IsCheckpoint(checkpoint)
    ensures forall e :: e in log && IsCheckpoint(e) && e.Cursor().epoch == checkpoint.Cursor().epoch ==> e == checkpoint
  {
    forall e | e in log && IsCheckpoint(e) && e.Cursor().epoch == checkpoint.Cursor().epoch ensures e == checkpoint {
      var i :| 0 <= i < |log| && log[i] == e;
      var j :| 0 <= j < |log| && log[j] == checkpoint;
      if i < j { CursorsIncrease(project, log, i, j); }
      if j < i { CursorsIncrease(project, log, j, i); }
    }
  }

  // ---------------------------------------------------------- every step

  // How an endpoint may change: its log only grows, and leaving a term means a head beyond that term.
  predicate Grown(before: Endpoint, after: Endpoint) {
    && before.log <= after.log && Head(before.log).epoch <= Head(after.log).epoch
    && (before.role.Active? ==>
          (after.role.Active? && after.epoch == before.epoch) || before.epoch < Head(after.log).epoch)
  }

  predicate AllGrown(nodes: Nodes, nodes': Nodes) {
    nodes'.Keys == nodes.Keys && forall x :: x in nodes ==> Grown(nodes[x], nodes'[x])
  }

  lemma QueuesGrow(nodes: Nodes, nodes': Nodes, queued: map<Text, set<Event>>)
    requires QueuesFit(nodes, queued) && AllGrown(nodes, nodes')
    ensures QueuesFit(nodes', queued)
  {
    forall x, e | x in queued && e in queued[x] ensures QueueFits(nodes'[x], e) {
      assert QueueFits(nodes[x], e);
    }
  }

  lemma CallsGrow(nodes: Nodes, nodes': Nodes, calls: map<nat, Call>)
    requires CallsFit(nodes, calls) && AllGrown(nodes, nodes')
    ensures CallsFit(nodes', calls)
  {
    forall n | n in calls ensures CallFits(nodes', calls[n]) {
      assert CallFits(nodes, calls[n]);
    }
  }

  lemma AckedGrow(nodes: Nodes, nodes': Nodes, acked: map<Text, set<Event>>)
    requires AckedHeld(nodes, acked) && AllGrown(nodes, nodes')
    ensures AckedHeld(nodes', acked)
  {
  }

  lemma DrainsGrow(nodes: Nodes, nodes': Nodes, drains: map<nat, Drain>)
    requires DrainsFit(nodes, drains) && AllGrown(nodes, nodes')
    ensures DrainsFit(nodes', drains)
  {
    forall n | n in drains ensures DrainFits(nodes', drains[n]) {
      assert DrainFits(nodes, drains[n]);
    }
  }

  lemma AppendGrows(ep: Endpoint, e: Event)
    requires Sound(ep)
    ensures Grown(ep, AppendData(ep, e).0)
  {
    DecideExact(ep.project, ep.log, e);
    if ep.log != [] {
      Linked(ep.project, ep.log, |ep.log| - 1);
    }
  }

  lemma NodeSound(nodes: Nodes, tip: Text, project: Text, x: Text)
    requires Led(nodes, tip, project) && x in nodes
    ensures Sound(nodes[x])
  {
    assert nodes[x].log == nodes[tip].log[..|nodes[x].log|];
    ValidPrefix(project, nodes[tip].log, |nodes[x].log|);
  }

  // What every step does to the endpoints: the invariant's core stays, logs grow, and so does the common history.
  ghost predicate Moves(nodes: Nodes, nodes': Nodes, tip: Text, newTip: Text, project: Text) {
    && tip in nodes && Core(nodes', newTip, project)
    && AllGrown(nodes, nodes')
    && nodes[tip].log <= nodes'[newTip].log
  }

  lemma Stays(nodes: Nodes, tip: Text, project: Text, x: Text)
    requires Core(nodes, tip, project) && x in nodes
    ensures Moves(nodes, nodes[x := nodes[x]], tip, tip, project)
  {
    assert nodes[x := nodes[x]] == nodes;
  }

  // A queued event, committed late or on time: a stale one is refused, a current one extends the tip.
  lemma QueuedCommits(nodes: Nodes, tip: Text, project: Text, x: Text, e: Event)
    requires Core(nodes, tip, project) && x in nodes && QueueFits(nodes[x], e)
    ensures var after := AppendData(nodes[x], e).0;
      && Core(nodes[x := after], tip, project) && Grown(nodes[x], after)
      && after.role == nodes[x].role && after.epoch == nodes[x].epoch
    ensures AppendData(nodes[x], e).1.None? ==> e in AppendData(nodes[x], e).0.log
    ensures AppendData(nodes[x], e).0 == nodes[x]
         || (AppendData(nodes[x], e).0.log == nodes[x].log + [e] && nodes[x].role.Active? && e.Cursor().epoch == nodes[x].epoch)
  {
    NodeSound(nodes, tip, project, x);
    AppendGrows(nodes[x], e);
    AppendDataSound(nodes[x], e);
    if AppendData(nodes[x], e).0 == nodes[x] {
      Stays(nodes, tip, project, x);
    } else {
      if e.Cursor().epoch < Head(nodes[x].log).epoch {
        StaleNeverCommits(project, nodes[x].log, e);
      }
      CoreTipAppends(nodes, tip, project, e);
    }
  }

  ghost predicate WindowFacts(nodes: Nodes, tip: Text, project: Text, x: Text, after: Endpoint) {
    && x in nodes && Core(nodes[x := after], tip, project)
    && Grown(nodes[x], after) && after.role == nodes[x].role && after.epoch == nodes[x].epoch
    && CommitsOwnTerm(nodes[x], after)
  }

  // Whatever went in is of the endpoint's current term, and without a term nothing did.
  predicate CommitsOwnTerm(before: Endpoint, after: Endpoint) {
    && (before.role.Replica? ==> after == before)
    && forall e :: e in after.log ==> e in before.log || e.Cursor().epoch == before.epoch
  }

  lemma WindowStep(nodes: Nodes, tip: Text, project: Text, x: Text, before: Endpoint, e: Event)
    requires WindowFacts(nodes, tip, project, x, before) && QueueFits(nodes[x], e)
    ensures WindowFacts(nodes, tip, project, x, AppendData(before, e).0)
    ensures before.log <= AppendData(before, e).0.log
    ensures AppendData(before, e).1.None? ==> e in AppendData(before, e).0.log
  {
    hide Decide;
    GrownFits(nodes[x], before, e);
    QueuedCommits(nodes[x := before], tip, project, x, e);
    assert nodes[x := before][x := AppendData(before, e).0] == nodes[x := AppendData(before, e).0];
  }

  lemma {:induction false} WindowCommits(nodes: Nodes, tip: Text, project: Text, x: Text, window: seq<Event>)
    requires Core(nodes, tip, project) && x in nodes
    requires forall e :: e in window ==> QueueFits(nodes[x], e)
    ensures WindowFacts(nodes, tip, project, x, CommitWindow(nodes[x], window).0)
    ensures CommitsOwnTerm(nodes[x], CommitWindow(nodes[x], window).0)
    ensures CommittedHeld(window, CommitWindow(nodes[x], window).1, CommitWindow(nodes[x], window).0.log)
  {
    if window == [] {
      Stays(nodes, tip, project, x);
    } else {
      hide WindowFacts;
      var e := Last(window);
      WindowCommits(nodes, tip, project, x, Init(window));
      var (before, results) := CommitWindow(nodes[x], Init(window));
      WindowStep(nodes, tip, project, x, before, e);
      var (after, result) := AppendData(before, e);
      CommittedMore(Init(window), results, before.log, e, result, after.log);
      assert Init(window) + [e] == window;
    }
  }

  predicate CommittedHeld(window: seq<Event>, results: seq<Option<Error>>, log: seq<Event>)
    requires |window| == |results|
  {
    forall e :: e in Committed(window, results) ==> e in log
  }

  lemma CommittedMore(window: seq<Event>, results: seq<Option<Error>>, log: seq<Event>, e: Event, result: Option<Error>, after: seq<Event>)
    requires |window| == |results| && CommittedHeld(window, results, log)
    requires log <= after && (result.None? ==> e in after)
    ensures CommittedHeld(window + [e], results + [result], after)
  {
    forall d | d in Committed(window + [e], results + [result]) ensures d in after {
      var i :| 0 <= i < |window| + 1 && (results + [result])[i].None? && (window + [e])[i] == d;
      if i < |window| {
        assert results[i].None? && window[i] == d;
        assert d in Committed(window, results);
      }
    }
  }

  lemma GrownFits(before: Endpoint, after: Endpoint, e: Event)
    requires QueueFits(before, e) && Grown(before, after)
    ensures QueueFits(after, e)
  {
  }

  lemma MovesAppend(nodes: Nodes, tip: Text, project: Text, x: Text, e: Event)
    requires Core(nodes, tip, project) && x in nodes && !IsCheckpoint(e)
    ensures Moves(nodes, nodes[x := Append(nodes[x], e).0], tip, tip, project)
    ensures Append(nodes[x], e).1.None? ==> e in Append(nodes[x], e).0.log
  {
    NodeSound(nodes, tip, project, x);
    AppendDataSound(nodes[x], e);
    AppendGrows(nodes[x], e);
    if Append(nodes[x], e).0 == nodes[x] {
      Stays(nodes, tip, project, x);
    } else {
      CoreTipAppends(nodes, tip, project, e);
    }
  }

  lemma MovesDeliver(nodes: Nodes, tip: Text, project: Text, x: Text, e: Event)
    requires Core(nodes, tip, project) && x in nodes && e in nodes[tip].log
    ensures Moves(nodes, nodes[x := Ingest(nodes[x], e).0], tip, tip, project)
  {
    hide Decide;
    CoreDelivers(nodes, tip, project, x, e);
    NodeSound(nodes, tip, project, x);
    AppendGrows(nodes[x], e);
  }

  lemma MovesFence(nodes: Nodes, tip: Text, project: Text, x: Text, request: Request, c: Text, previous: Digest, now: Instant)
    requires Core(nodes, tip, project) && x in nodes && c in nodes
    ensures Moves(nodes, nodes[x := FenceAsReplica(nodes[x], request, c, previous, now).0], tip, tip, project)
  {
    hide PromotionKey, FenceAsReplica, Decide, Valid;
    FenceExact(nodes, tip, project, x, request, c, previous, now);
    var (after, r) := FenceAsReplica(nodes[x], request, c, previous, now);
    if r.Ok? {
      CoreFences(nodes, tip, project, request, c, previous, now);
      assert Last(after.log) == r.value;
    } else {
      Stays(nodes, tip, project, x);
    }
  }

  lemma MovesFlip(nodes: Nodes, tip: Text, project: Text, c: Text, checkpoint: Event, ids: seq<Text>) returns (newTip: Text)
    requires Core(nodes, tip, project) && c in nodes
    requires checkpoint in nodes[tip].log && IsCheckpoint(checkpoint) && checkpoint.fields.payload.candidate == c
    ensures Moves(nodes, nodes[c := PromoteToActive(nodes[c], checkpoint, ids).0], tip, newTip, project)
  {
    hide Decide;
    newTip := CoreFlips(nodes, tip, project, c, checkpoint, ids);
  }

  ghost predicate StepFacts(s: Cluster, t: Cluster, tip: Text, newTip: Text, project: Text) {
    Inv(t, newTip, project) && Moves(s.nodes, t.nodes, tip, newTip, project)
  }

  lemma Settle(s: Cluster, nodes': Nodes, tip: Text, newTip: Text, project: Text)
    requires Inv(s, tip, project) && Moves(s.nodes, nodes', tip, newTip, project) && OutboxesHeld(nodes')
    ensures StepFacts(s, s.(nodes := nodes'), tip, newTip, project)
  {
    DrainsGrow(s.nodes, nodes', s.drains);
    QueuesGrow(s.nodes, nodes', s.queued);
    AckedGrow(s.nodes, nodes', s.acked);
    CallsGrow(s.nodes, nodes', s.calls);
  }

  // One endpoint changes, and its waiting rows still hold events of its log.
  lemma SettleAt(s: Cluster, x: Text, after: Endpoint, tip: Text, newTip: Text, project: Text)
    requires Inv(s, tip, project) && x in s.nodes && Moves(s.nodes, s.nodes[x := after], tip, newTip, project) && RowsHeld(after)
    ensures StepFacts(s, s.(nodes := s.nodes[x := after]), tip, newTip, project)
  {
    hide Moves, RowsHeld, QueuesFit, CallsFit, AckedHeld, DrainsFit;
    Settle(s, s.nodes[x := after], tip, newTip, project);
  }

  lemma NodeHeld(s: Cluster, x: Text, tip: Text, project: Text)
    requires Inv(s, tip, project) && x in s.nodes
    ensures RowsHeld(s.nodes[x])
  {
  }

  lemma StepAppendNow(s: Cluster, x: Text, e: Event, tip: Text, project: Text)
    requires Inv(s, tip, project) && Enabled(s, AppendNow(x, e))
    ensures StepFacts(s, Apply(s, AppendNow(x, e)), tip, tip, project)
  {
    hide Core, AppendData, Moves, QueuesFit, CallsFit, DrainsFit, RowsHeld;
    MovesAppend(s.nodes, tip, project, x, e);
    AppendKeepsHeld(s.nodes[x], e);
    SettleAt(s, x, Append(s.nodes[x], e).0, tip, tip, project);
  }

  lemma StepCommitDrained(s: Cluster, x: Text, window: seq<Event>, tip: Text, project: Text)
    requires Inv(s, tip, project) && Enabled(s, CommitDrained(x, window))
    ensures StepFacts(s, Apply(s, CommitDrained(x, window)), tip, tip, project)
  {
    hide RowsHeld, AppendData, CommitWindow, Inv, Moves, StepFacts, Core;
    CoreOf(s, tip, project);
    AllQueued(s, x, window, tip, project);
    var (after, results) := CommitWindow(s.nodes[x], window);
    WindowCommits(s.nodes, tip, project, x, window);
    WindowMoves(s.nodes, tip, project, x, after);
    NodeHeld(s, x, tip, project);
    WindowKeepsHeld(s.nodes[x], window);
    SettleAt(s, x, after, tip, tip, project);
    AckedMore(s.(nodes := s.nodes[x := after]), x, Committed(window, results), s, tip, project);
  }

  lemma AllQueued(s: Cluster, x: Text, window: seq<Event>, tip: Text, project: Text)
    requires Inv(s, tip, project) && Enabled(s, CommitDrained(x, window))
    ensures tip in s.nodes && forall e :: e in window ==> QueueFits(s.nodes[x], e)
  {
  }

  lemma WindowMoves(nodes: Nodes, tip: Text, project: Text, x: Text, after: Endpoint)
    requires WindowFacts(nodes, tip, project, x, after) && tip in nodes
    ensures Moves(nodes, nodes[x := after], tip, tip, project)
  {
    hide Core;
  }

  lemma AckedMore(t: Cluster, x: Text, more: set<Event>, s: Cluster, tip: Text, project: Text)
    requires StepFacts(s, t, tip, tip, project) && x in t.nodes && forall e :: e in more ==> e in t.nodes[x].log
    ensures StepFacts(s, t.(acked := t.acked[x := Of(t.acked, x) + more]), tip, tip, project)
  {
    hide Core, Moves, QueuesFit, CallsFit, DrainsFit, RowsHeld;
  }

  lemma CoreOf(s: Cluster, tip: Text, project: Text)
    requires Inv(s, tip, project)
    ensures Core(s.nodes, tip, project)
  {
  }

  lemma StepFence(s: Cluster, n: nat, previous: Digest, now: Instant, tip: Text, project: Text)
    requires Inv(s, tip, project) && Enabled(s, Fence(n, previous, now))
    ensures StepFacts(s, Apply(s, Fence(n, previous, now)), tip, tip, project)
  {
    hide PromotionKey, FenceAsReplica, PromoteToActive, Decide, Valid, Core, Moves, RowsHeld;
    CoreOf(s, tip, project);
    var call := s.calls[n];
    var request := Effective(call.request, s.nodes[call.active].id, call.candidate);
    var (after, r) := FenceAsReplica(s.nodes[call.active], request, call.candidate, previous, now);
    MovesFence(s.nodes, tip, project, call.active, request, call.candidate, previous, now);
    FenceExact(s.nodes, tip, project, call.active, request, call.candidate, previous, now);
    FenceKeepsHeld(s.nodes[call.active], request, call.candidate, previous, now);
    SettleAt(s, call.active, after, tip, tip, project);
  }

  lemma StepFlip(s: Cluster, n: nat, tip: Text, project: Text) returns (newTip: Text)
    requires Inv(s, tip, project) && Enabled(s, Flip(n))
    ensures StepFacts(s, Apply(s, Flip(n)), tip, newTip, project)
  {
    hide RowsHeld, Moves, PromoteToActive, Core;
    CoreOf(s, tip, project);
    var call := s.calls[n];
    CallIsFit(s, n, tip, project);
    newTip := MovesFlip(s.nodes, tip, project, call.candidate, call.checkpoint, call.request.replicaIds);
    FlipKeepsHeld(s.nodes[call.candidate], call.checkpoint, call.request.replicaIds);
    SettleAt(s, call.candidate, Apply(s, Flip(n)).nodes[call.candidate], tip, newTip, project);
  }

  lemma CallIsFit(s: Cluster, n: nat, tip: Text, project: Text)
    requires Inv(s, tip, project) && n in s.calls && s.calls[n].Holding?
    ensures var call := s.calls[n];
      && call.candidate in s.nodes && call.checkpoint in s.nodes[tip].log && IsCheckpoint(call.checkpoint)
      && call.checkpoint.fields.payload.candidate == call.candidate
  {
    assert CallFits(s.nodes, s.calls[n]);
  }

  lemma StepDeliver(s: Cluster, x: Text, y: Text, e: Event, tip: Text, project: Text)
    requires Inv(s, tip, project) && Enabled(s, Deliver(x, y, e))
    ensures StepFacts(s, Apply(s, Deliver(x, y, e)), tip, tip, project)
  {
    hide AppendData, Moves, RowsHeld;
    MovesDeliver(s.nodes, tip, project, x, e);
    AppendKeepsHeld(s.nodes[x], e);
    SettleAt(s, x, Ingest(s.nodes[x], e).0, tip, tip, project);
  }

  // A drain delivers the next row it read.
  lemma StepDrainNext(s: Cluster, n: nat, tip: Text, project: Text)
    requires Inv(s, tip, project) && Enabled(s, DrainNext(n))
    ensures StepFacts(s, Apply(s, DrainNext(n)), tip, tip, project)
  {
    hide AppendData, Moves, RowsHeld, Core, Ingest, StepFacts;
    var d := s.drains[n];
    var e := d.waiting[0];
    DrainIsFit(s, n, tip, project);
    CoreOf(s, tip, project);
    StepDeliver(s, d.replica, d.node, e, tip, project);
    var m := Apply(s, Deliver(d.replica, d.node, e));
    IngestHolds(s.nodes, tip, project, d.replica, e);
    DrainGoesOn(s, m, n, Ingest(s.nodes[d.replica], e).1, tip, project);
  }

  lemma DrainIsFit(s: Cluster, n: nat, tip: Text, project: Text)
    requires Inv(s, tip, project) && n in s.drains
    ensures DrainFits(s.nodes, s.drains[n])
  {
  }

  lemma IngestHolds(nodes: Nodes, tip: Text, project: Text, x: Text, e: Event)
    requires Core(nodes, tip, project) && x in nodes
    ensures Ingest(nodes[x], e).1.None? ==> e in Ingest(nodes[x], e).0.log
  {
    hide AppendData;
    NodeSound(nodes, tip, project, x);
    AppendDataSound(nodes[x], e);
  }

  lemma DrainGoesOn(s: Cluster, m: Cluster, n: nat, failure: Option<Error>, tip: Text, project: Text)
    requires StepFacts(s, m, tip, tip, project) && m.drains == s.drains && n in s.drains && DrainFits(s.nodes, s.drains[n])
    requires s.drains[n].waiting != [] && (failure.None? ==> s.drains[n].waiting[0] in m.nodes[s.drains[n].replica].log)
    ensures StepFacts(s, m.(drains := s.drains[n := Drained(s.drains[n], failure)]), tip, tip, project)
  {
    hide Core, RowsHeld, QueuesFit, CallsFit, AckedHeld, Moves, DrainFits;
    DrainStillFits(m.nodes, m.drains[n], failure) by { assert DrainFits(m.nodes, m.drains[n]); }
  }

  lemma DrainStillFits(nodes: Nodes, d: Drain, failure: Option<Error>)
    requires DrainFits(nodes, d) && d.waiting != [] && (failure.None? ==> d.waiting[0] in nodes[d.replica].log)
    ensures DrainFits(nodes, Drained(d, failure))
  {
  }

  // Deleting the rows of what a drain delivered.
  lemma StepAcknowledge(s: Cluster, n: nat, tip: Text, project: Text)
    requires Inv(s, tip, project) && Enabled(s, Acknowledge(n))
    ensures StepFacts(s, Apply(s, Acknowledge(n)), tip, tip, project)
  {
    hide Core, RowsHeld, QueuesFit, CallsFit, AckedHeld, Moves;
    var d := s.drains[n];
    var after := AckOutbox(s.nodes[d.node], d.replica, IdsOf(d.applied));
    AckKeepsHeld(s.nodes[d.node], d.replica, IdsOf(d.applied));
    MovesAck(s.nodes, tip, project, d.node, after);
    SettleAt(s, d.node, after, tip, tip, project);
  }

  lemma MovesAck(nodes: Nodes, tip: Text, project: Text, x: Text, after: Endpoint)
    requires Core(nodes, tip, project) && x in nodes && after == nodes[x].(outbox := after.outbox)
    ensures Moves(nodes, nodes[x := after], tip, tip, project)
  {
    CoreKeepsOutbox(nodes, tip, project, x, after);
  }

  lemma RowsAreEvents(s: Cluster, x: Text, r: Text, tip: Text, project: Text)
    requires Inv(s, tip, project) && x in s.nodes
    ensures forall e :: e in RowsOf(s.nodes[x].outbox, r).Values ==> e in s.nodes[x].log
  {
  }

  // Steps that leave every endpoint alone.
  lemma StepAside(s: Cluster, a: Action, tip: Text, project: Text)
    requires Inv(s, tip, project) && Enabled(s, a)
    requires a.Enqueue? || a.StartPromotion? || a.Resume? || a.Abandon?
    ensures StepFacts(s, Apply(s, a), tip, tip, project)
  {
    hide AppendData, EpochsOpenByCheckpoint, Entitled, MovedOn, Valid, RowsHeld, Append, CommitWindow, Ingest, FenceAsReplica, PromoteToActive;
  }

  lemma StepDrainAside(s: Cluster, a: Action, tip: Text, project: Text)
    requires Inv(s, tip, project) && Enabled(s, a) && (a.StartDrain? || a.AbandonDrain?)
    ensures StepFacts(s, Apply(s, a), tip, tip, project)
  {
    hide Core, AppendData, Valid, RowsHeld, Append, CommitWindow, Ingest, FenceAsReplica, PromoteToActive, RowsOf;
    Standing(s, tip, project);
    if a.StartDrain? {
      RowsAreEvents(s, a.node, a.replica, tip, project);
      assert DrainFits(s.nodes, Drain(a.node, a.replica, a.rows, {}));
    }
  }

  lemma Standing(s: Cluster, tip: Text, project: Text)
    requires Inv(s, tip, project)
    ensures Moves(s.nodes, s.nodes, tip, tip, project)
  {
  }

  // The invariant is inductive over every interleaving.
  lemma StepKeepsInv(s: Cluster, a: Action, tip: Text, project: Text) returns (newTip: Text)
    requires Inv(s, tip, project) && Enabled(s, a)
    ensures StepFacts(s, Apply(s, a), tip, newTip, project)
  {
    hide Inv, Enabled, Apply, StepFacts;
    newTip := tip;
    match a
    case AppendNow(x, e) => StepAppendNow(s, x, e, tip, project);
    case CommitDrained(x, window) => StepCommitDrained(s, x, window, tip, project);
    case Deliver(x, y, e) => StepDeliver(s, x, y, e, tip, project);
    case DrainNext(n) => StepDrainNext(s, n, tip, project);
    case Acknowledge(n) => StepAcknowledge(s, n, tip, project);
    case Fence(n, previous, now) => StepFence(s, n, previous, now, tip, project);
    case Flip(n) => newTip := StepFlip(s, n, tip, project);
    case Enqueue(x, e) => StepAside(s, a, tip, project);
    case StartDrain(n, x, r, rows) => StepDrainAside(s, a, tip, project);
    case AbandonDrain(n) => StepDrainAside(s, a, tip, project);
    case StartPromotion(n, x, c, request) => StepAside(s, a, tip, project);
    case Resume(n) => StepAside(s, a, tip, project);
    case Abandon(n) => StepAside(s, a, tip, project);
  }
}
