/** Group commit against the fence: what a window drained before a fence and committed after it is told. */
module FenceRace {
  import opened Events
  import opened Chain
  import opened Endpoints
  import opened Clusters
  import Safety
  import Runs

  // Nothing is wrong with the event itself, and the log has neither its id nor its key.
  predicate Unspoilt(ep: Endpoint, e: Event) {
    Verify(e).None? && e.fields.projectId == ep.project && !HasId(ep.log, e.Id()) && !HasKey(ep.log, e.Key())
  }

  // The epoch error is the answer to exactly the good events whose epoch the log has left.
  lemma EpochErrorExact(ep: Endpoint, e: Event)
    requires Sound(ep)
    ensures AppendData(ep, e).1 == Some(EpochFenced) <==> Unspoilt(ep, e) && e.Cursor().epoch < Head(ep.log).epoch
    ensures AppendData(ep, e).1 != Some(RoleFenced)
    ensures AppendData(ep, e).1.None? <==> e in AppendData(ep, e).0.log
  {
    AppendDataSound(ep, e);
    DecideExact(ep.project, ep.log, e);
    if ep.log != [] {
      Linked(ep.project, ep.log, |ep.log| - 1);
    }
  }

  // In every reachable cluster, whenever a drained window is committed: no event of it is ever told of the role. It is told
  // of the epoch exactly when it is good, unused and of an epoch the log has left by then. At an endpoint that has been
  // fenced every queued event is of such an epoch, none is added, and only those the log has already are confirmed.
  lemma LateCommitAnswers(s0: Cluster, first: Text, project: Text, actions: seq<Action>, s: Cluster, x: Text, window: seq<Event>, i: nat)
    requires Initial(s0, first, project) && Reaches(s0, actions, s) && Enabled(s, CommitDrained(x, window)) && i < |window|
    ensures var (before, e, answer) := (CommitWindow(s.nodes[x], window[..i]).0, window[i], CommitWindow(s.nodes[x], window).1[i]);
      && answer != Some(RoleFenced)
      && (answer == Some(EpochFenced) <==> Unspoilt(before, e) && e.Cursor().epoch < Head(before.log).epoch)
      && (s.nodes[x].role.Replica? ==>
            && before == CommitWindow(s.nodes[x], window).0 == s.nodes[x] && e.Cursor().epoch < Head(s.nodes[x].log).epoch
            && (answer.None? <==> e in s.nodes[x].log))
  {
    hide Inv, Core, AppendData, Reaches, Valid, Decide;
    var tip := Safety.ReachedInv(s0, first, project, actions, s);
    AllQueued(s, x, window, tip, project);
    CoreOf(s, tip, project);
    WindowCommits(s.nodes, tip, project, x, window);
    WindowCommits(s.nodes, tip, project, x, window[..i]);
    var before := CommitWindow(s.nodes[x], window[..i]).0;
    assert s.nodes[x := before][x] == before;
    LedFromCore(s.nodes[x := before], tip, project);
    NodeSound(s.nodes[x := before], tip, project, x);
    AnswerAt(s.nodes[x], window, i);
    EpochErrorExact(before, window[i]);
    assert QueueFits(s.nodes[x], window[i]);
    if s.nodes[x].role.Replica? {
      FencedTakesNothing(s.nodes[x], before, window[i]);
    }
  }

  lemma FencedTakesNothing(ep: Endpoint, before: Endpoint, e: Event)
    requires Sound(ep) && before == ep && e.Cursor().epoch < Head(ep.log).epoch
    ensures AppendData(before, e).0 == ep
  {
    StaleNeverCommits(ep.project, ep.log, e);
  }

  // ------------------------------------------------------------ such a run

  const HERE: Text := [65]
  const THERE: Text := [67]
  const PROJECT: Text := [80]

  function Sample(n: int, id: Text, previous: Digest): Event {
    var f := Fields(StateChangeV1, PROJECT, id, Cursor(1, n), 1, [1], [1], id, [], Other([1], 0));
    Event(f, previous, Sha256(f, previous))
  }

  const FIRST := Sample(1, [2], NoDigest)
  const SECOND := Sample(2, [3], FIRST.checksum)
  const REQUEST := Request([1], [1], [4], [], [])

  const START := Cluster(map[HERE := Endpoint(HERE, PROJECT, Active, 1, [], {}, map[]), THERE := Endpoint(THERE, PROJECT, Replica, 1, [], {}, map[])],
                         map[HERE := {}], map[], map[], map[])

  const RACE := [AppendNow(HERE, FIRST), Enqueue(HERE, SECOND), StartPromotion(0, HERE, THERE, REQUEST), Fence(0, FIRST.checksum, 1)]

  lemma SampleIsGood(n: int, id: Text, previous: Digest)
    requires n >= 1 && |id| == 1 && !IsSpace(id[0])
    ensures Verify(Sample(n, id, previous)).None?
  {
    assert !IsSpace(PROJECT[0]) && !IsSpace([1][0]);
  }

  lemma OneEvent(id: Text, e: Event)
    ensures HasId([e], id) <==> e.Id() == id
    ensures HasKey([e], id) <==> e.Key() == id
  {
    assert [e][0] == e;
  }

  // The first event goes in, and a checkpoint follows it.
  lemma FirstThenFence(ep: Endpoint)
    requires ep == START.nodes[HERE]
    ensures var (after, failure) := Append(ep, FIRST);
      && failure.None? && after == ep.(log := [FIRST])
      && var (fenced, r) := FenceAsReplica(after, Effective(REQUEST, HERE, THERE), THERE, FIRST.checksum, 1);
         r.Ok? && fenced.role.Replica? && fenced.project == PROJECT && fenced.log == [FIRST, r.value]
         && Unspoilt(fenced, SECOND) && SECOND.Cursor() == Cursor(1, 2) && r.value.Cursor() == Cursor(2, 1)
  {
    SampleIsGood(1, [2], NoDigest);
    SampleIsGood(2, [3], FIRST.checksum);
    var after := Append(ep, FIRST).0;
    assert after.log == [FIRST] && AddRows(map[], {}, FIRST) == map[];
    assert Trim([4]) == [4];
    OneEvent([4], FIRST);
    var built := BuildCheckpoint(PROJECT, HERE, THERE, Effective(REQUEST, HERE, THERE), FIRST.checksum, 2, 1);
    assert !IsSpace([4][0]) && !IsSpace([1][0]) && !IsSpace(PROJECT[0]);
    assert built.Ok? && Decide(PROJECT, [FIRST], built.value) == Commit;
    assert [FIRST] + [built.value] == [FIRST, built.value];
    HasIdMore([FIRST], built.value, [3]);
    OneEvent([3], FIRST);
  }

  // The states of the run.
  const WRITTEN := START.nodes[HERE].(log := [FIRST])
  const AFTER_WRITE := START.(nodes := START.nodes[HERE := WRITTEN], acked := map[HERE := {FIRST}])
  const AFTER_ACCEPT := AFTER_WRITE.(queued := map[HERE := {SECOND}])
  const AFTER_REQUEST := AFTER_ACCEPT.(calls := map[0 := Asked(HERE, THERE, REQUEST)])

  lemma Written()
    ensures Enabled(START, RACE[0]) && Apply(START, RACE[0]) == AFTER_WRITE
  {
    hide Append, FenceAsReplica, CommitWindow;
    FirstThenFence(START.nodes[HERE]);
    assert {} + {FIRST} == {FIRST};
  }

  lemma Accepted()
    ensures Enabled(AFTER_WRITE, RACE[1]) && Apply(AFTER_WRITE, RACE[1]) == AFTER_ACCEPT
    ensures Enabled(AFTER_ACCEPT, RACE[2]) && Apply(AFTER_ACCEPT, RACE[2]) == AFTER_REQUEST
  {
    hide Append, FenceAsReplica, CommitWindow;
    assert {} + {SECOND} == {SECOND};
  }

  lemma FencedTooEarly()
    ensures Enabled(AFTER_REQUEST, RACE[3])
    ensures var s := Apply(AFTER_REQUEST, RACE[3]);
      Enabled(s, CommitDrained(HERE, [SECOND])) && HERE in s.nodes && CommitWindow(s.nodes[HERE], [SECOND]).1 == [Some(EpochFenced)]
  {
    hide Append, FenceAsReplica, CommitWindow, AppendData, FIRST, SECOND;
    FirstThenFence(START.nodes[HERE]);
    var s := Apply(AFTER_REQUEST, RACE[3]);
    EpochErrorHere(s.nodes[HERE], SECOND);
    OneWindow(s.nodes[HERE], SECOND);
  }

  lemma EpochErrorHere(ep: Endpoint, e: Event)
    requires Unspoilt(ep, e) && |ep.log| == 2 && 1 <= e.Cursor().epoch < ep.log[1].Cursor().epoch
    ensures AppendData(ep, e).1 == Some(EpochFenced)
  {
  }

  lemma OneWindow(ep: Endpoint, e: Event)
    ensures CommitWindow(ep, [e]).1 == [AppendData(ep, e).1]
  {
    assert CommitWindow(ep, Init([e])) == (ep, []);
  }

  // From a fresh cluster: an append accepted into a window while its endpoint was active, whose window is committed after
  // the fence, ends neither in a commit nor in the role error but in the epoch error.
  lemma FenceRaceRun() returns (s: Cluster)
    ensures Initial(START, HERE, PROJECT) && Reaches(START, RACE, s)
    ensures Enabled(s, CommitDrained(HERE, [SECOND])) && CommitWindow(s.nodes[HERE], [SECOND]).1 == [Some(EpochFenced)]
  {
    hide Enabled, Apply, Reaches, CommitWindow, AppendData;
    Written();
    Accepted();
    FencedTooEarly();
    NoStepYet(START);
    OneMoreStep(START, RACE, 0, START);
    OneMoreStep(START, RACE, 1, AFTER_WRITE);
    OneMoreStep(START, RACE, 2, AFTER_ACCEPT);
    OneMoreStep(START, RACE, 3, AFTER_REQUEST);
    s := Apply(AFTER_REQUEST, RACE[3]);
    assert RACE[..4] == RACE;
  }
}
