/** Promote run by one caller over the former active and the candidate, and when it completes. */
module Promotion {
  import opened Events
  import opened Chain
  import opened Endpoints
  import opened Clusters
  import opened Safety

  datatype Promoted = Promoted(checkpoint: Event, resumed: bool)

  datatype Outcome = Outcome(active: Endpoint, candidate: Endpoint, result: Result<Promoted>)

  predicate ValidRequest(request: Request) {
    !Blank(request.actor) && !Blank(request.command)
  }

  function EvaluateConvergence(candidate: Cursor, candidateHash: Digest, active: Cursor, activeHash: Digest): Option<Error> {
    match AheadOrDiverged(candidate, candidateHash, active, activeHash)
    case Some(error) => Some(error)
    case None => if CompareCursor(candidate, active) < 0 then Some(PromotionNotConverged) else None
  }

  // Step 1: fence the active, or recognise the fence an earlier call left.
  function EnsureFenced(a: Endpoint, candidate: Text, request: Request, now: Instant): (Endpoint, Result<Promoted>) {
    match a.role
    case Active =>
      var (fenced, r) := FenceAsReplica(a, request, candidate, HeadHash(a.log), now);
      (fenced, match r case Ok(checkpoint) => Ok(Promoted(checkpoint, false)) case Err(error) => Err(error))
    case Replica =>
      if a.log == [] || !IsCheckpoint(Last(a.log)) || Last(a.log).Key() != Trim(request.key)
         || Last(a.log).fields.payload.candidate != candidate
      then (a, Err(PromotionSourceNotActive))
      else (a, Ok(Promoted(Last(a.log), true)))
  }

  // Steps 2 and 3: catch the candidate up to the checkpoint and flip it.
  function CatchUpAndFlip(a: Endpoint, c: Endpoint, p: Promoted, replicaIds: seq<Text>): Outcome {
    var (caught, failure) := if Head(c.log) != p.checkpoint.Cursor() then Replicate(a, c) else (c, None);
    if failure.Some? then Outcome(a, caught, Err(failure.value))
    else
      match EvaluateConvergence(Head(caught.log), HeadHash(caught.log), p.checkpoint.Cursor(), p.checkpoint.checksum)
      case Some(error) => Outcome(a, caught, Err(error))
      case None =>
        var (flipped, refusal) := PromoteToActive(caught, p.checkpoint, replicaIds);
        Outcome(a, flipped, if refusal.Some? then Err(refusal.value) else Ok(p))
  }

  function Promote(a: Endpoint, c: Endpoint, request: Request, now: Instant): Outcome {
    if !ValidRequest(request) then Outcome(a, c, Err(PromotionRequestInvalid))
    else if a.role.Active? && !c.role.Replica? then Outcome(a, c, Err(PromotionCandidateNotReplica))
    else if a.role.Active? && a.log == [] && c.log == [] then Outcome(a, c, Err(PromotionEmptyJournals))
    else
      var (fenced, r) := EnsureFenced(a, c.id, Effective(request, a.id, c.id), now);
      match r
      case Err(error) => Outcome(fenced, c, Err(error))
      case Ok(p) => CatchUpAndFlip(fenced, c, p, request.replicaIds)
  }

  // ------------------------------------------------------------------ keys

  lemma {:induction false} TrimLeftKeeps(t: Text)
    ensures TrimLeft(t) == [] ==> Blank(t)
    ensures TrimLeft(t) != [] ==> !IsSpace(TrimLeft(t)[0])
  {
    if t != [] && IsSpace(t[0]) {
      TrimLeftKeeps(t[1..]);
    }
  }

  lemma {:induction false} TrimRightKeeps(t: Text)
    requires t != [] && !IsSpace(t[0])
    ensures TrimRight(t) != [] && !IsSpace(TrimRight(t)[0]) && !IsSpace(TrimRight(t)[|TrimRight(t)| - 1])
  {
    if IsSpace(t[|t| - 1]) {
      TrimRightKeeps(t[..|t| - 1]);
    }
  }

  // Trimming leaves nothing exactly of blank text, and trimming again changes nothing.
  lemma TrimExact(t: Text)
    ensures Trim(t) == [] ==> Blank(t)
    ensures Trim(Trim(t)) == Trim(t)
    ensures !Blank(t) ==> !Blank(Trim(t))
  {
    TrimLeftKeeps(t);
    if TrimLeft(t) != [] {
      TrimRightKeeps(TrimLeft(t));
    }
  }

  // The fence stores exactly the key a resumed call looks for, whatever key (or none) the operator gave.
  lemma FenceKeyIsResumeKey(key: Text, former: Text, candidate: Text)
    ensures PromotionKey(PromotionKey(key, former, candidate), former, candidate) == Trim(PromotionKey(key, former, candidate))
    ensures !Blank(PromotionKey(PromotionKey(key, former, candidate), former, candidate))
  {
    var effective := PromotionKey(key, former, candidate);
    TrimExact(key);
    TrimExact(effective);
    assert effective != [] && !IsSpace(effective[0]) by {
      if Trim(key) != [] {
        TrimLeftKeeps(key);
        TrimRightKeeps(TrimLeft(key));
      } else {
        assert effective[0] == 112;
      }
    }
  }

  // -------------------------------------------------------- when it completes

  predicate Takeover(a: Endpoint, c: Endpoint, after: Outcome, checkpoint: Event) {
    && after.active.log == after.candidate.log && after.candidate.log != [] && Last(after.candidate.log) == checkpoint
    && after.active.role.Replica? && after.candidate.role.Active?
    && after.candidate.epoch == checkpoint.Cursor().epoch && checkpoint.Cursor().sequence == 1
    && Grants(checkpoint, c.id, checkpoint.Cursor().epoch)
    && a.log <= after.active.log
  }

  lemma CatchUpCompletes(a: Endpoint, c: Endpoint, p: Promoted, ids: seq<Text>)
    requires Sound(a) && Sound(c) && a.project == c.project && a.log != [] && Last(a.log) == p.checkpoint
    requires c.role.Replica? && c.log <= a.log
    ensures var o := CatchUpAndFlip(a, c, p, ids);
      && o.active == a && o.candidate.log == a.log && o.candidate.role.Active? && o.candidate.epoch == p.checkpoint.Cursor().epoch
      && (o.result.Ok? <==> ValidReplicaIds(ids)) && (o.result.Ok? ==> o.result.value == p)
  {
    hide Valid, Decide;
    if Head(c.log) != p.checkpoint.Cursor() {
      ReplicateExact(a, c);
    } else {
      SamePrefixHead(a, c);
    }
  }

  lemma SamePrefixHead(a: Endpoint, c: Endpoint)
    requires Sound(a) && a.log != [] && c.log <= a.log && Head(c.log) == Head(a.log)
    ensures c.log == a.log
  {
    assert c.log == a.log[..|c.log|];
    Linked(a.project, a.log, |a.log| - 1);
    if 0 < |c.log| < |a.log| {
      CursorsIncrease(a.project, a.log, |c.log| - 1, |a.log| - 1);
    }
  }

  // Whenever nobody is active, however the system got there, the promotion that stopped can be called again by
  // its former active, candidate and key, and it ends with that candidate active at the checkpoint's epoch
  // and not one event more than the checkpoint already there.
  lemma EveryStalledPromotionResumes(s0: Cluster, first: Text, project: Text, actions: seq<Action>, s: Cluster, request: Request, now: Instant)
    returns (former: Text, candidate: Text)
    requires Initial(s0, first, project) && Reaches(s0, actions, s)
    requires forall x :: x in s.nodes ==> s.nodes[x].role.Replica?
    ensures former in s.nodes && candidate in s.nodes && s.nodes[former].log != []
    ensures Grants(Last(s.nodes[former].log), candidate, Last(s.nodes[former].log).Cursor().epoch)
    ensures (&& ValidRequest(request) && ValidReplicaIds(request.replicaIds)
             && Last(s.nodes[former].log).Key() == Trim(PromotionKey(request.key, former, candidate))) ==>
        var o := Promote(s.nodes[former], s.nodes[candidate], request, now);
        && o.result == Ok(Promoted(Last(s.nodes[former].log), true))
        && o.active == s.nodes[former]
        && Takeover(s.nodes[former], s.nodes[candidate], o, Last(s.nodes[former].log))
  {
    former := ReachedInv(s0, first, project, actions, s);
    var a := s.nodes[former];
    var checkpoint := Last(a.log);
    assert checkpoint in a.log;
    candidate := checkpoint.fields.payload.candidate;
    assert a.log[|a.log| - 1] == checkpoint;
    NodeSound(s.nodes, former, project, candidate);
    CatchUpCompletes(a, s.nodes[candidate], Promoted(checkpoint, true), request.replicaIds);
  }

  // What a promotion that fenced x and then stopped leaves behind, while anything else went on, short of its candidate writing.
  lemma StoppedLeaves(s: Cluster, n: nat, previous: Digest, now: Instant, tip: Text, project: Text, x: Text, u: Cluster, more: seq<Action>, t: Cluster)
    returns (checkpoint: Event)
    requires n in s.calls && x in s.nodes && Inv(s, tip, project)
    requires Fences(s, n, previous, now, x) && Step(s, Fence(n, previous, now), u) && Reaches(u, more, t)
    requires ValidReplicaIds(s.calls[n].request.replicaIds) && s.calls[n].candidate != x
    requires s.calls[n].candidate in t.nodes && |t.nodes[s.calls[n].candidate].log| <= |s.nodes[x].log| + 1
    ensures checkpoint.Cursor() == Cursor(s.nodes[x].epoch + 1, 1) && x in t.nodes && t.nodes[x].log == s.nodes[x].log + [checkpoint]
    ensures ResumesAt(t.nodes[x], t.nodes[s.calls[n].candidate], s.calls[n].request, checkpoint)
    ensures Completes(t.nodes[x], t.nodes[s.calls[n].candidate], s.calls[n].request, checkpoint)
  {
    hide Inv, Apply, Valid, Decide, FenceAsReplica, PromotionKey, CatchUpAndFlip;
    var c, request := s.calls[n].candidate, s.calls[n].request;
    checkpoint := FenceOpensNext(s, n, previous, now, tip, project, x);
    var newTip := RunKeepsInv(u, more, t, x, project);
    InvGivesCore(t, newTip, project);
    var i := |s.nodes[x].log|;
    assert t.nodes[newTip].log[i] == checkpoint;
    HistoryStill(t.nodes, newTip, project, i, c, x);
    assert Last(t.nodes[x].log) == checkpoint;
    CoreNames(t.nodes, newTip, project, x);
    CoreNames(t.nodes, newTip, project, c);
    hide Core, CatchUpAndFlip, PromotionKey, IsCheckpoint;
    ResumedCompletes(t.nodes, newTip, project, x, c, checkpoint, request.replicaIds);
  }

  // The fenced endpoint ends in the checkpoint of this very call.
  predicate ResumesAt(a: Endpoint, c: Endpoint, request: Request, checkpoint: Event) {
    && a.role.Replica? && a.log != [] && Last(a.log) == checkpoint && IsCheckpoint(checkpoint)
    && checkpoint.fields.payload.candidate == c.id
    && checkpoint.Key() == PromotionKey(PromotionKey(request.key, a.id, c.id), a.id, c.id)
  }

  // Catching up and flipping succeeds, and leaves the candidate active with the fenced endpoint's log.
  predicate Completes(a: Endpoint, c: Endpoint, request: Request, checkpoint: Event) {
    var o := CatchUpAndFlip(a, c, Promoted(checkpoint, true), request.replicaIds);
    && o.active == a && o.candidate.log == a.log && o.candidate.role.Active?
    && o.candidate.epoch == checkpoint.Cursor().epoch && o.result == Ok(Promoted(checkpoint, true))
  }

  lemma FenceTaken(s: Cluster, n: nat, previous: Digest, now: Instant, u: Cluster)
    requires Reaches(s, [Fence(n, previous, now)], u) && n in s.calls && s.calls[n].Asked? && n in u.calls && u.calls[n].Holding?
    ensures Fences(s, n, previous, now, s.calls[n].active) && u == Apply(s, Fence(n, previous, now))
  {
    hide FenceAsReplica, Reaches;
    var m := LastStep(s, [Fence(n, previous, now)], u);
    Unmoved(s, [Fence(n, previous, now)][..0], m);
  }

  // The same call again finds its own checkpoint and ends with the candidate active at the old epoch plus one.
  lemma StoppedPromotionResumes(s0: Cluster, first: Text, project: Text, actions: seq<Action>, s: Cluster,
                                n: nat, previous: Digest, now: Instant, u: Cluster, more: seq<Action>, t: Cluster, again: Instant)
    returns (checkpoint: Event)
    requires Initial(s0, first, project) && Reaches(s0, actions, s)
    requires Reaches(s, [Fence(n, previous, now)], u) && n in s.calls && s.calls[n].Asked? && n in u.calls && u.calls[n].Holding?
    requires s.calls[n].active in s.nodes && s.calls[n].candidate != s.calls[n].active && Reaches(u, more, t)
    requires ValidRequest(s.calls[n].request) && ValidReplicaIds(s.calls[n].request.replicaIds)
    requires s.calls[n].candidate in t.nodes && |t.nodes[s.calls[n].candidate].log| <= |s.nodes[s.calls[n].active].log| + 1
    ensures checkpoint.Cursor() == Cursor(s.nodes[s.calls[n].active].epoch + 1, 1)
    ensures s.calls[n].active in t.nodes && t.nodes[s.calls[n].active].log == s.nodes[s.calls[n].active].log + [checkpoint]
    ensures var a, c := t.nodes[s.calls[n].active], t.nodes[s.calls[n].candidate];
      var o := Promote(a, c, s.calls[n].request, again);
      o.result == Ok(Promoted(checkpoint, true)) && o.active == a && Takeover(a, c, o, checkpoint)
  {
    hide Inv, Apply, Valid, Decide, FenceAsReplica, Promote, CatchUpAndFlip, PromotionKey, Reaches, Fences;
    var x := s.calls[n].active;
    var tip := ReachedInv(s0, first, project, actions, s);
    FenceTaken(s, n, previous, now, u);
    checkpoint := StoppedLeaves(s, n, previous, now, tip, project, x, u, more, t);
    ResumedOutcome(t.nodes[x], t.nodes[s.calls[n].candidate], s.calls[n].request, again, checkpoint);
  }

  // A call that finds its own checkpoint at the head goes straight to catching the candidate up.
  lemma ResumedOutcome(a: Endpoint, c: Endpoint, request: Request, now: Instant, checkpoint: Event)
    requires ResumesAt(a, c, request, checkpoint) && ValidRequest(request)
    ensures Promote(a, c, request, now) == CatchUpAndFlip(a, c, Promoted(checkpoint, true), request.replicaIds)
  {
    hide PromotionKey, CatchUpAndFlip;
    FenceKeyIsResumeKey(request.key, a.id, c.id);
  }

  // As long as the candidate named at position i has not gone past it, nobody has.
  lemma HistoryStill(nodes: Nodes, tip: Text, project: Text, i: nat, c: Text, x: Text)
    requires Core(nodes, tip, project) && x in nodes && c in nodes && i < |nodes[tip].log| && |nodes[x].log| >= i + 1
    requires IsCheckpoint(nodes[tip].log[i]) && nodes[tip].log[i].fields.payload.candidate == c && |nodes[c].log| <= i + 1
    ensures |nodes[tip].log| == i + 1 && nodes[x].log == nodes[tip].log
    ensures nodes[tip].role.Active? ==> tip == c
  {
    LastMove(nodes, tip, i);
    if nodes[tip].role.Active? {
      LastCheckpointIsCurrent(nodes, tip, project);
    }
  }

  lemma LastMove(nodes: Nodes, tip: Text, i: nat)
    requires tip in nodes && MovedOn(nodes, nodes[tip].log) && i < |nodes[tip].log| && IsCheckpoint(nodes[tip].log[i])
    ensures nodes[tip].log[i].fields.payload.candidate in nodes
    ensures |nodes[nodes[tip].log[i].fields.payload.candidate].log| <= i + 1 ==> |nodes[tip].log| == i + 1
  {
  }

  lemma ResumedCompletes(nodes: Nodes, tip: Text, project: Text, x: Text, c: Text, checkpoint: Event, ids: seq<Text>)
    requires Core(nodes, tip, project) && x in nodes && c in nodes && x != c
    requires nodes[x].log == nodes[tip].log && nodes[x].log != [] && Last(nodes[x].log) == checkpoint
    requires nodes[tip].role.Active? ==> tip == c
    requires ValidReplicaIds(ids)
    ensures nodes[x].role.Replica?
    ensures var o := CatchUpAndFlip(nodes[x], nodes[c], Promoted(checkpoint, true), ids);
      && o.active == nodes[x] && o.candidate.log == nodes[x].log && o.candidate.role.Active?
      && o.candidate.epoch == checkpoint.Cursor().epoch && o.result == Ok(Promoted(checkpoint, true))
  {
    NodeSound(nodes, tip, project, x);
    NodeSound(nodes, tip, project, c);
    if nodes[c].role.Replica? {
      CatchUpCompletes(nodes[x], nodes[c], Promoted(checkpoint, true), ids);
    }
  }

  // --------------------------------------- the call, as steps of the cluster

  // The promotion's two endpoints as the call leaves them, everybody else as before.
  function Promoting(s: Cluster, x: Text, c: Text, o: Outcome): Nodes {
    s.nodes[x := o.active][c := o.candidate]
  }

  // Delivering events of x to c one after another is what ingesting them all does.
  lemma {:induction false} DeliverAll(s: Cluster, x: Text, c: Text, events: seq<Event>) returns (actions: seq<Action>)
    requires x in s.nodes && c in s.nodes && x != c && (forall e :: e in events ==> e in s.nodes[x].log)
    requires IngestAll(s.nodes[c], events).2.None?
    ensures Reaches(s, actions, s.(nodes := s.nodes[c := IngestAll(s.nodes[c], events).0]))
  {
    hide Reaches, Ingest;
    if events == [] {
      actions := [];
      NoStepYet(s);
      assert s.nodes[c := s.nodes[c]] == s.nodes;
    } else {
      var earlier := DeliverAll(s, x, c, Init(events));
      var m := s.(nodes := s.nodes[c := IngestAll(s.nodes[c], Init(events)).0]);
      actions := AndThen(s, earlier, m, Deliver(c, x, Last(events)));
      assert m.nodes[c := IngestAll(s.nodes[c], events).0] == s.nodes[c := IngestAll(s.nodes[c], events).0];
    }
  }

  lemma AndThen(s: Cluster, actions: seq<Action>, m: Cluster, a: Action) returns (more: seq<Action>)
    requires Reaches(s, actions, m) && Enabled(m, a)
    ensures more == actions + [a] && Reaches(s, more, Apply(m, a))
  {
    more := actions + [a];
    assert more[..|actions|] == actions && more[..|actions| + 1] == more;
    OneMoreStep(s, more, |actions|, m);
  }

  // Runs put together.
  lemma {:induction false} Joined(s: Cluster, first: seq<Action>, m: Cluster, more: seq<Action>, t: Cluster)
    requires Reaches(s, first, m) && Reaches(m, more, t)
    ensures Reaches(s, first + more, t)
  {
    hide Reaches, Enabled, Apply;
    if more == [] {
      Unmoved(m, more, t);
      assert first + more == first;
    } else {
      var n := |more| - 1;
      var u := LastStep(m, more, t);
      Joined(s, first, m, more[..n], u);
      var all := AndThen(s, first + more[..n], u, more[n]);
      assert all == first + more;
    }
  }

  // Catching up is a run of deliveries, or changes nothing.
  lemma ReplicateIsARun(s: Cluster, tip: Text, project: Text, x: Text, c: Text) returns (actions: seq<Action>)
    requires Core(s.nodes, tip, project) && x in s.nodes && c in s.nodes && x != c
    ensures Reaches(s, actions, s.(nodes := s.nodes[c := Replicate(s.nodes[x], s.nodes[c]).0]))
  {
    hide Reaches, IngestAll, After, AheadOrDiverged, CanFollow;
    var a, b := s.nodes[x], s.nodes[c];
    LedFromCore(s.nodes, tip, project);
    hide Core;
    NodeSound(s.nodes, tip, project, x);
    NodeSound(s.nodes, tip, project, c);
    hide Led;
    ReplicateExact(a, b);
    if Replicate(a, b).1.Some? {
      NoStepYet(s);
      SameNodes(s.nodes, x, c);
      actions := [];
    } else {
      AfterIsPart(a.project, a.log, Head(b.log));
      actions := DeliverAll(s, x, c, After(a.log, Head(b.log)));
    }
  }

  // Steps 2 and 3 are deliveries and a flip, by a call that holds its checkpoint.
  lemma CatchUpIsARun(s: Cluster, tip: Text, project: Text, n: nat, replicaIds: seq<Text>, p: Promoted) returns (actions: seq<Action>, t: Cluster)
    requires Inv(s, tip, project) && n in s.calls && s.calls[n].Holding? && s.calls[n].checkpoint == p.checkpoint
    requires s.calls[n].active in s.nodes && s.calls[n].candidate in s.nodes && s.calls[n].active != s.calls[n].candidate
    requires s.calls[n].request.replicaIds == replicaIds
    ensures Reaches(s, actions, t)
    ensures var x, c := s.calls[n].active, s.calls[n].candidate;
      t.nodes == Promoting(s, x, c, CatchUpAndFlip(s.nodes[x], s.nodes[c], p, replicaIds))
  {
    hide Reaches, PromoteToActive, Inv, Replicate, Ingest, CommitWindow, Append, RowsOf, FenceAsReplica, Resumable, EvaluateConvergence;
    var x, c := s.calls[n].active, s.calls[n].candidate;
    InvGivesCore(s, tip, project);
    hide Core;
    actions, t := [], s;
    NoStepYet(s);
    SameNodes(s.nodes, x, c);
    if Head(s.nodes[c].log) != p.checkpoint.Cursor() {
      actions := ReplicateIsARun(s, tip, project, x, c);
      t := s.(nodes := s.nodes[c := Replicate(s.nodes[x], s.nodes[c]).0]);
      if Replicate(s.nodes[x], s.nodes[c]).1.Some? {
        return;
      }
    }
    if EvaluateConvergence(Head(t.nodes[c].log), HeadHash(t.nodes[c].log), p.checkpoint.Cursor(), p.checkpoint.checksum).None? {
      var m := t;
      actions := AndThen(s, actions, m, Flip(n));
      t := Apply(m, Flip(n));
    }
  }

  lemma AfterIsPart(project: Text, log: seq<Event>, cursor: Cursor)
    requires Valid(project, log)
    ensures forall e :: e in After(log, cursor) ==> e in log
  {
    var k := AfterIsSuffix(project, log, cursor);
  }

  lemma SameNodes(nodes: Nodes, x: Text, c: Text)
    requires x in nodes && c in nodes
    ensures nodes[x := nodes[x]] == nodes && nodes[x := nodes[x]][c := nodes[c]] == nodes
  {
  }

  // Step 1 is a fence or the recognition of one, or nothing happens.
  lemma FencingIsARun(s: Cluster, tip: Text, project: Text, n: nat, now: Instant) returns (actions: seq<Action>, t: Cluster)
    requires Inv(s, tip, project) && n in s.calls && s.calls[n].Asked?
    requires s.calls[n].active in s.nodes && s.calls[n].candidate in s.nodes
    ensures Reaches(s, actions, t)
    ensures var call := s.calls[n]; var a := s.nodes[call.active];
      var (fenced, r) := EnsureFenced(a, call.candidate, Effective(call.request, call.active, call.candidate), now);
      && t.nodes == s.nodes[call.active := fenced]
      && (r.Ok? ==> n in t.calls && t.calls[n] == Holding(call.active, call.candidate, call.request, r.value.checkpoint))
  {
    hide Reaches, FenceAsReplica, PromotionKey, Ingest, CommitWindow, Append, PromoteToActive, RowsOf;
    InvGivesCore(s, tip, project);
    CoreNames(s.nodes, tip, project, s.calls[n].active);
    hide Inv, Core;
    var call := s.calls[n];
    var a := s.nodes[call.active];
    var request := Effective(call.request, call.active, call.candidate);
    actions, t := [], s;
    NoStepYet(s);
    assert s.nodes[call.active := a] == s.nodes;
    if a.role.Active? {
      var step := Fence(n, HeadHash(a.log), now);
      actions := AndThen(s, [], s, step);
      t := Apply(s, step);
    } else if EnsureFenced(a, call.candidate, request, now).1.Ok? {
      actions := AndThen(s, [], s, Resume(n));
      t := Apply(s, Resume(n));
    }
  }

  // A whole Promote over two endpoints of a cluster is a run of that cluster: everything proved of runs holds of it.
  lemma PromoteIsARun(s: Cluster, tip: Text, project: Text, x: Text, c: Text, request: Request, now: Instant, n: nat)
    returns (actions: seq<Action>, t: Cluster)
    requires Inv(s, tip, project) && x in s.nodes && c in s.nodes && x != c
    ensures Reaches(s, actions, t)
    ensures t.nodes == Promoting(s, x, c, Promote(s.nodes[x], s.nodes[c], request, now))
  {
    hide Reaches, EnsureFenced, CatchUpAndFlip, PromotionKey, Inv, Ingest, CommitWindow, Append, PromoteToActive, RowsOf, FenceAsReplica, Resumable, Blank;
    InvGivesCore(s, tip, project);
    CoreNames(s.nodes, tip, project, x);
    CoreNames(s.nodes, tip, project, c);
    hide Core;
    SameNodes(s.nodes, x, c);
    var a, b, effective := s.nodes[x], s.nodes[c], Effective(request, x, c);
    var (fenced, r) := EnsureFenced(a, c, effective, now);
    NoStepYet(s);
    actions, t := [], s;
    if Promote(a, b, request, now) != Outcome(a, b, Promote(a, b, request, now).result) {
      actions := AndThen(s, [], s, StartPromotion(n, x, c, request));
      var asked := Apply(s, StartPromotion(n, x, c, request));
      var askedTip := RunKeepsInv(s, actions, asked, tip, project);
      var fencing, held := FencingIsARun(asked, askedTip, project, n, now);
      Joined(s, actions, asked, fencing, held);
      actions := actions + fencing;
      t := held;
      if r.Ok? {
        var heldTip := RunKeepsInv(asked, fencing, held, askedTip, project);
        var catching, done := CatchUpIsARun(held, heldTip, project, n, request.replicaIds, r.value);
        Joined(s, actions, held, catching, done);
        actions := actions + catching;
        t := done;
      }
    }
  }

  // A completed call leaves at most one endpoint active, whatever endpoints and key it was given and however it ended.
  lemma PromoteKeepsOneAuthority(s0: Cluster, first: Text, project: Text, actions: seq<Action>, s: Cluster, x: Text, c: Text, request: Request, now: Instant)
    requires Initial(s0, first, project) && Reaches(s0, actions, s) && x in s.nodes && c in s.nodes && x != c
    ensures var nodes := Promoting(s, x, c, Promote(s.nodes[x], s.nodes[c], request, now));
      forall y, z :: y in nodes && z in nodes && nodes[y].role.Active? && nodes[z].role.Active? ==> y == z
  {
    hide Reaches, Promote, Initial;
    var tip := ReachedInv(s0, first, project, actions, s);
    var more, t := PromoteIsARun(s, tip, project, x, c, request, now, 0);
    Joined(s0, actions, s, more, t);
    SingleAuthority(s0, first, project, actions + more, t);
  }

  // On an endpoint that is not active, a call succeeds exactly as the completion of the promotion its head checkpoint
  // records: that candidate, that effective key, a candidate not past the checkpoint. It adds no event.
  lemma ResumedPromotionExact(s0: Cluster, first: Text, project: Text, actions: seq<Action>, s: Cluster, x: Text, c: Text, request: Request, now: Instant)
    requires Initial(s0, first, project) && Reaches(s0, actions, s)
    requires x in s.nodes && s.nodes[x].role.Replica? && c in s.nodes && c != x
    ensures var a, b := s.nodes[x], s.nodes[c];
      var o := Promote(a, b, request, now);
      && (o.result.Ok? <==>
            && ValidRequest(request) && ValidReplicaIds(request.replicaIds)
            && a.log != [] && ResumesAt(a, b, request, Last(a.log)) && |b.log| <= |a.log|)
      && (o.result.Ok? ==> o.result.value == Promoted(Last(a.log), true) && o.active == a && Takeover(a, b, o, Last(a.log)))
      && (o.result.Err? && !(a.log != [] && ResumesAt(a, b, request, Last(a.log))) ==> o.active == a && o.candidate == b)
  {
    hide Reaches, PromotionKey, CatchUpAndFlip, Inv, Core;
    var tip := ReachedInv(s0, first, project, actions, s);
    InvGivesCore(s, tip, project);
    CoreNames(s.nodes, tip, project, x);
    CoreNames(s.nodes, tip, project, c);
    var a, b := s.nodes[x], s.nodes[c];
    FenceKeyIsResumeKey(request.key, x, c);
    if a.log != [] && ResumesAt(a, b, request, Last(a.log)) {
      HeadResumes(s.nodes, tip, project, x, c, request);
    }
  }

  lemma HeadResumes(nodes: Nodes, tip: Text, project: Text, x: Text, c: Text, request: Request)
    requires Core(nodes, tip, project) && x in nodes && c in nodes && x != c && nodes[x].log != []
    requires ResumesAt(nodes[x], nodes[c], request, Last(nodes[x].log))
    ensures var a, b, checkpoint := nodes[x], nodes[c], Last(nodes[x].log);
      var o := CatchUpAndFlip(a, b, Promoted(checkpoint, true), request.replicaIds);
      && (o.result.Ok? <==> ValidReplicaIds(request.replicaIds) && |b.log| <= |a.log|)
      && (o.result.Ok? ==> o.result.value == Promoted(checkpoint, true) && o.active == a && Takeover(a, b, o, checkpoint))
  {
    hide CatchUpAndFlip, PromotionKey, Valid, Decide;
    var a, b, checkpoint := nodes[x], nodes[c], Last(nodes[x].log);
    CoreNames(nodes, tip, project, x);
    CoreNames(nodes, tip, project, c);
    OkNeedsIds(a, b, Promoted(checkpoint, true), request.replicaIds);
    if |b.log| <= |a.log| {
      StillHeads(nodes, tip, project, x, c);
      if ValidReplicaIds(request.replicaIds) {
        ResumedCompletes(nodes, tip, project, x, c, checkpoint, request.replicaIds);
      }
    } else {
      GonePast(nodes, tip, project, x, c, request.replicaIds);
    }
    OpensItsEpoch(nodes, tip, project, x);
  }

  lemma StillHeads(nodes: Nodes, tip: Text, project: Text, x: Text, c: Text)
    requires Core(nodes, tip, project) && x in nodes && c in nodes && nodes[x].log != [] && |nodes[c].log| <= |nodes[x].log|
    requires IsCheckpoint(Last(nodes[x].log)) && Last(nodes[x].log).fields.payload.candidate == c
    ensures nodes[x].log == nodes[tip].log && (nodes[tip].role.Active? ==> tip == c)
  {
    hide Valid;
    var i := |nodes[x].log| - 1;
    assert nodes[tip].log[i] == Last(nodes[x].log);
    HistoryStill(nodes, tip, project, i, c, x);
  }

  lemma OpensItsEpoch(nodes: Nodes, tip: Text, project: Text, x: Text)
    requires Core(nodes, tip, project) && x in nodes && nodes[x].log != [] && IsCheckpoint(Last(nodes[x].log))
    ensures Last(nodes[x].log).Cursor().sequence == 1
  {
    hide Valid;
    assert Last(nodes[x].log) in nodes[x].log;
  }

  lemma OkNeedsIds(a: Endpoint, c: Endpoint, p: Promoted, ids: seq<Text>)
    ensures CatchUpAndFlip(a, c, p, ids).active == a
    ensures CatchUpAndFlip(a, c, p, ids).result.Ok? ==> ValidReplicaIds(ids) && CatchUpAndFlip(a, c, p, ids).result.value == p
  {
    hide Replicate, ValidReplicaIds, EvaluateConvergence;
  }

  // The new active serves exactly the replicas it was given, and still holds every row that waits at it.
  lemma PromotedServes(a: Endpoint, c: Endpoint, request: Request, now: Instant, r: Text)
    requires Sound(a) && Sound(c) && Promote(a, c, request, now).result.Ok?
    ensures var after := Promote(a, c, request, now).candidate;
      && (r in after.replicas <==> r in request.replicaIds) && (r in request.replicaIds ==> r in after.outbox)
      && forall e :: e in c.log && Waits(c, r, e) ==> Waits(after, r, e)
  {
    hide PromotionKey, IngestAll, ValidReplicaIds, AheadOrDiverged, After, Waits, BuildCheckpoint;
    var (fenced, fence) := EnsureFenced(a, c.id, Effective(request, a.id, c.id), now);
    var caught := if Head(c.log) != fence.value.checkpoint.Cursor() then Replicate(fenced, c).0 else c;
    forall e | e in c.log && Waits(c, r, e) ensures Waits(caught, r, e) {
      IngestKeepsRows(c, After(fenced.log, Head(c.log)), r, e);
      RowUnchanged(c, r, e);
    }
    var after := PromoteToActive(caught, fence.value.checkpoint, request.replicaIds).0;
    forall e | Waits(caught, r, e) ensures Waits(after, r, e) {
      FlipKeepsRows(caught, fence.value.checkpoint, request.replicaIds, r, e);
    }
  }

  lemma {:induction false} IngestKeepsRows(ep: Endpoint, events: seq<Event>, r: Text, e: Event)
    requires Sound(ep) && e in ep.log
    ensures RowKept(ep, IngestAll(ep, events).0, r, e)
    ensures Sound(IngestAll(ep, events).0) && e in IngestAll(ep, events).0.log
  {
    hide AppendData, Valid, Waits;
    if events != [] {
      IngestKeepsRows(ep, Init(events), r, e);
      var before := IngestAll(ep, Init(events)).0;
      AppendKeepsRows(before, Last(events), r, e);
      AppendDataSound(before, Last(events));
    }
  }

  // A candidate that holds more than the fenced endpoint cannot catch up with it.
  lemma GonePast(nodes: Nodes, tip: Text, project: Text, x: Text, c: Text, ids: seq<Text>)
    requires Core(nodes, tip, project) && x in nodes && c in nodes && nodes[x].log != [] && |nodes[c].log| > |nodes[x].log|
    ensures CatchUpAndFlip(nodes[x], nodes[c], Promoted(Last(nodes[x].log), true), ids).result.Err?
  {
    hide Decide, Replicate;
    LedFromCore(nodes, tip, project);
    NodeSound(nodes, tip, project, x);
    NodeSound(nodes, tip, project, c);
    var history, n, m := nodes[tip].log, |nodes[x].log|, |nodes[c].log|;
    CursorsIncrease(project, history, n - 1, m - 1);
    assert Last(nodes[x].log) == history[n - 1] && Last(nodes[c].log) == history[m - 1];
    ReplicateExact(nodes[x], nodes[c]);
  }

  // ------------------------------------------- with anything in between

  // Among the actions are, in this order, deliveries of these events of x to c.
  predicate Delivers(actions: seq<Action>, c: Text, x: Text, events: seq<Event>) {
    if events == [] then true
    else if actions == [] then false
    else
      var n, m := |actions| - 1, |events| - 1;
      Delivers(actions[..n], c, x, events) || (actions[n] == Deliver(c, x, events[m]) && Delivers(actions[..n], c, x, events[..m]))
  }

  // The event after the first k of the history reaches position k of a follower that has k of them, and of any that has more.
  lemma DeliveryCounts(s: Cluster, tip: Text, project: Text, c: Text, x: Text, k: nat)
    requires Inv(s, tip, project) && c in s.nodes && x in s.nodes && k < |s.nodes[x].log| && |s.nodes[c].log| >= k
    requires Enabled(s, Deliver(c, x, s.nodes[x].log[k]))
    ensures var t := Apply(s, Deliver(c, x, s.nodes[x].log[k])); c in t.nodes && |t.nodes[c].log| >= k + 1
  {
    hide Valid, Decide;
    var history, ep := s.nodes[tip].log, s.nodes[c];
    assert s.nodes[x].log[k] == history[k];
    if |ep.log| == k {
      assert ep.log == history[..k];
      Admitted(project, history, k);
    } else {
      NodeSound(s.nodes, tip, project, c);
      AppendDataSound(ep, history[k]);
    }
  }

  lemma LastPart(log: seq<Event>, k: nat, m: nat)
    requires k < m <= |log|
    ensures log[k..m][..m - k - 1] == log[k..m - 1] && log[k..m][m - k - 1] == log[m - 1]
  {
  }

  // However other steps come in between, the deliveries of a catch-up add up.
  lemma {:induction false} DeliveredInOrder(u: Cluster, actions: seq<Action>, t: Cluster, tip: Text, project: Text, c: Text, x: Text, k: nat, m: nat)
    requires Inv(u, tip, project) && Reaches(u, actions, t) && c in u.nodes && x in u.nodes
    requires k <= m <= |u.nodes[x].log| && k <= |u.nodes[c].log|
    requires Delivers(actions, c, x, u.nodes[x].log[k..m])
    ensures c in t.nodes && |t.nodes[c].log| >= m
  {
    hide Inv, Reaches, Enabled, Apply, StepFacts;
    var log := u.nodes[x].log;
    var _ := RunKeepsInv(u, actions, t, tip, project);
    if actions == [] {
      Unmoved(u, actions, t);
      assert log[k..m] == [];
    } else if k < m {
      var n := |actions| - 1;
      var s := LastStep(u, actions, t);
      var midTip := RunKeepsInv(u, actions[..n], s, tip, project);
      if Delivers(actions[..n], c, x, log[k..m]) {
        DeliveredInOrder(u, actions[..n], s, tip, project, c, x, k, m);
        var newTip := StepKeepsInv(s, actions[n], midTip, project);
        StepFactsSay(s, t, midTip, newTip, project);
      } else {
        LastPart(log, k, m);
        DeliveredInOrder(u, actions[..n], s, tip, project, c, x, k, m - 1);
        assert s.nodes[x].log[m - 1] == log[m - 1];
        DeliveryCounts(s, midTip, project, c, x, m - 1);
      }
    }
  }

  // A call that holds its checkpoint, fenced now or found again, and delivers what its candidate lacks, can flip it whatever
  // anybody else did in between, short of the candidate having written already.
  lemma InterleavedPromotionCompletes(s0: Cluster, first: Text, project: Text, actions: seq<Action>, u: Cluster, n: nat, k: nat, more: seq<Action>, t: Cluster)
    requires Initial(s0, first, project) && Reaches(s0, actions, u) && Reaches(u, more, t)
    requires n in u.calls && u.calls[n].Holding? && u.calls[n].active in u.nodes && u.calls[n].candidate in u.nodes
    requires u.nodes[u.calls[n].active].log != [] && Last(u.nodes[u.calls[n].active].log) == u.calls[n].checkpoint
    requires k <= |u.nodes[u.calls[n].candidate].log| && k <= |u.nodes[u.calls[n].active].log|
    requires Delivers(more, u.calls[n].candidate, u.calls[n].active, u.nodes[u.calls[n].active].log[k..])
    requires n in t.calls && t.calls[n] == u.calls[n]
    requires u.calls[n].candidate in t.nodes && |t.nodes[u.calls[n].candidate].log| <= |u.nodes[u.calls[n].active].log|
    ensures Enabled(t, Flip(n)) && u.calls[n].candidate in Apply(t, Flip(n)).nodes
    ensures var c := Apply(t, Flip(n)).nodes[u.calls[n].candidate];
      && c.role.Active? && c.epoch == u.calls[n].checkpoint.Cursor().epoch && c.log == u.nodes[u.calls[n].active].log
    ensures PromoteToActive(t.nodes[u.calls[n].candidate], u.calls[n].checkpoint, u.calls[n].request.replicaIds).1.None? <==>
      ValidReplicaIds(u.calls[n].request.replicaIds)
  {
    hide Inv, Reaches, Valid, Decide, Delivers;
    var x, c, checkpoint := u.calls[n].active, u.calls[n].candidate, u.calls[n].checkpoint;
    var log := u.nodes[x].log;
    var tip := ReachedInv(s0, first, project, actions, u);
    var newTip := RunKeepsInv(u, more, t, tip, project);
    assert log[k..] == log[k..|log|];
    DeliveredInOrder(u, more, t, tip, project, c, x, k, |log|);
    InvGivesCore(t, newTip, project);
    CallIsFit(t, n, newTip, project);
    HeadsTheHistory(t.nodes, newTip, project, x, c, checkpoint, log);
    FlipsAtHead(t.nodes, newTip, project, c, checkpoint, u.calls[n].request.replicaIds);
  }

  lemma HeadsTheHistory(nodes: Nodes, tip: Text, project: Text, x: Text, c: Text, checkpoint: Event, log: seq<Event>)
    requires Core(nodes, tip, project) && x in nodes && c in nodes && log != [] && Last(log) == checkpoint && log <= nodes[x].log
    requires IsCheckpoint(checkpoint) && checkpoint.fields.payload.candidate == c && |nodes[c].log| == |log|
    ensures nodes[c].log == log == nodes[tip].log && (nodes[tip].role.Active? ==> tip == c)
  {
    hide Valid;
    var i := |log| - 1;
    assert nodes[tip].log[i] == checkpoint;
    HistoryStill(nodes, tip, project, i, c, x);
  }

  lemma FlipsAtHead(nodes: Nodes, tip: Text, project: Text, c: Text, checkpoint: Event, ids: seq<Text>)
    requires Core(nodes, tip, project) && c in nodes && nodes[c].log == nodes[tip].log != [] && Last(nodes[c].log) == checkpoint
    ensures var (after, failure) := PromoteToActive(nodes[c], checkpoint, ids);
      && after.role.Active? && after.epoch == checkpoint.Cursor().epoch && after.log == nodes[c].log
      && (failure.None? <==> ValidReplicaIds(ids))
  {
    hide Valid;
  }

  // A fresh promotion from the active endpoint to any replica: it succeeds exactly when the request is complete, the journal
  // is not empty and the key is new to it; then the checkpoint opens the next epoch and the candidate holds everything.
  lemma FreshPromotionExact(s0: Cluster, first: Text, project: Text, actions: seq<Action>, s: Cluster, x: Text, c: Text, request: Request, now: Instant)
    requires Initial(s0, first, project) && Reaches(s0, actions, s)
    requires x in s.nodes && s.nodes[x].role.Active? && c in s.nodes && c != x && now > 0
    ensures var o := Promote(s.nodes[x], s.nodes[c], request, now);
      var key := Trim(PromotionKey(request.key, x, c));
      && (o.result.Ok? <==>
            ValidRequest(request) && ValidReplicaIds(request.replicaIds) && s.nodes[x].log != []
            && !HasId(s.nodes[x].log, key) && !HasKey(s.nodes[x].log, key))
      && (o.result.Ok? ==>
            && !o.result.value.resumed
            && o.result.value.checkpoint.Cursor() == Cursor(s.nodes[x].epoch + 1, 1)
            && o.active.log == s.nodes[x].log + [o.result.value.checkpoint]
            && Takeover(s.nodes[x], s.nodes[c], o, o.result.value.checkpoint))
  {
    var tip := ReachedInv(s0, first, project, actions, s);
    var a := s.nodes[x];
    var effective := Effective(request, x, c);
    if ValidRequest(request) && a.log != [] {
      var (fenced, r) := FenceAsReplica(a, effective, c, HeadHash(a.log), now);
      FenceExact(s.nodes, tip, project, x, effective, c, HeadHash(a.log), now);
      FreshFence(s.nodes, tip, project, effective, request, c, now);
      if r.Ok? {
        ValidExtend(project, a.log, r.value);
        NodeSound(s.nodes, tip, project, c);
        CatchUpCompletes(fenced, s.nodes[c], Promoted(r.value, false), request.replicaIds);
      }
    }
  }

  // The active endpoint's fence goes through exactly when the key is new to its log.
  lemma FreshFence(nodes: Nodes, x: Text, project: Text, effective: Request, request: Request, c: Text, now: Instant)
    requires Core(nodes, x, project) && nodes[x].role.Active? && nodes[x].log != [] && now > 0
    requires ValidRequest(request) && effective == Effective(request, x, c)
    ensures var key := Trim(PromotionKey(request.key, x, c));
      FenceAsReplica(nodes[x], effective, c, HeadHash(nodes[x].log), now).1.Ok? <==>
        !HasId(nodes[x].log, key) && !HasKey(nodes[x].log, key)
  {
    var log := nodes[x].log;
    FenceKeyIsResumeKey(request.key, x, c);
    Linked(project, log, |log| - 1);
    var built := BuildCheckpoint(project, x, c, effective, HeadHash(log), nodes[x].epoch + 1, now);
    assert built.Ok?;
    DecideExact(project, log, built.value);
    if built.value in log {
      EpochBound(project, log, built.value);
    }
  }
}
