/** The window bounds are attained: for every window there is a crash-free conversation that
    reaches all of them. */
module Tightness {
  import opened Messages
  import opened History
  import opened Canon
  import opened Client
  import opened Server
  import opened Commits
  import opened Protocol
  import opened Safety
  import opened Answers
  import opened Acknowledgements
  import opened CrashFree
  import opened Window
  import opened Progress
  import opened Reachability

  /** A burst of n requests, none of which has been delivered, and none acknowledging anything. */
  ghost predicate Burst(y: System, n: nat) {
    && |y.frozen| == n && y.client.received == {} && y.client.pendingNew == [] && y.client.base == 1
    && (forall k :: 0 <= k < n ==> y.frozen[k].ackBase == 1 && y.frozen[k].ackNew == [])
  }

  lemma BurstOutstanding(hf: HashFn, y: System)
    requires Agreement(hf, y) && Burst(y, |y.frozen|)
    ensures |y.client.inflight| == |y.frozen|
  {
    hide ClientHistoryOk, ServerOk, MessagesOk, FrozenOk;
    assert y.client.inflight.Keys == UpTo(|y.frozen|);
  }

  lemma BurstGrows(hf: HashFn, p: Policy, y: System)
    requires Agreement(hf, y) && Burst(y, |y.frozen|) && |y.frozen| < p.window
    ensures
      var y' := Apply(hf, y, Generate(""));
      Enabled(p, y, Generate("")) && Burst(y', |y.frozen| + 1) && y'.server == y.server
  {
    hide AppendAll, ClientHistoryOk, ServerOk, MessagesOk, FrozenOk;
    BurstOutstanding(hf, y);
  }

  lemma {:induction false} Generates(hf: HashFn, p: Policy, n: nat) returns (y: System)
    requires n <= p.window
    ensures Reachable(hf, p, y) && Burst(y, n)
    ensures y.server == InitServer(hf, true)
  {
    hide Reachable, Agreement, Apply, Enabled;
    if n == 0 {
      y := Init(hf, true, true);
      InitReachable(hf, p, true, true);
    } else {
      var z := Generates(hf, p, n - 1);
      ReachableAgrees(hf, p, z);
      BurstGrows(hf, p, z);
      StepReachable(hf, p, z, Generate(""));
      y := Apply(hf, z, Generate(""));
    }
  }

  /** Everything above j is staged behind a first request that has not arrived. */
  ghost predicate Staged(y: System, j: nat) {
    && y.server.committedUpto == 0 && |y.server.pendingReqs| == |y.frozen| - j
    && (forall k :: k in y.server.pendingReqs <==> j < k <= |y.frozen|)
    && y.server.maxPending >= |y.frozen| - j
  }

  lemma StagesOne(hf: HashFn, s: ServerState, req: Request, app: AppFn)
    requires s.committedUpto + 1 !in s.pendingReqs && req.id > s.committedUpto + 1
    requires req.ackBase <= s.committedUpto + 1 && req.ackNew == []
    ensures
      var t := OnRequest(hf, s, req, app).state;
      && t.committedUpto == s.committedUpto && t.pendingReqs == s.pendingReqs[req.id := req]
      && t.maxPending >= |t.pendingReqs|
  {
    hide CommitLoop;
    CommitLoopStop(hf, Stage(Release(s, req), req), app);
  }

  lemma StagesNext(hf: HashFn, y: System, j: nat, app: AppFn)
    requires Agreement(hf, y) && Burst(y, |y.frozen|) && Staged(y, j + 1) && 1 <= j < |y.frozen|
    ensures
      var z := Apply(hf, y, DeliverRequest(j + 1, app));
      Staged(z, j) && z.frozen == y.frozen && z.client == y.client
  {
    hide OnRequest, ClientOk, ServerOk, MessagesOk;
    assert RequestOk(hf, y.frozen, j, y.client.received);
    StagesOne(hf, y.server, y.frozen[j], app);
    var z := Apply(hf, y, DeliverRequest(j + 1, app));
    assert j + 1 !in y.server.pendingReqs;
    assert z.server.pendingReqs.Keys == y.server.pendingReqs.Keys + {j + 1};
  }

  lemma {:induction false} StagesDown(hf: HashFn, p: Policy, y: System, j: nat, app: AppFn) returns (z: System)
    requires Reachable(hf, p, y) && Burst(y, |y.frozen|) && y.server == InitServer(hf, true) && 1 <= j <= |y.frozen|
    ensures Reachable(hf, p, z) && z.frozen == y.frozen && z.client == y.client && Staged(z, j)
    decreases |y.frozen| - j
  {
    hide Reachable, Agreement, Apply;
    if j == |y.frozen| {
      z := y;
    } else {
      var x := StagesDown(hf, p, y, j + 1, app);
      ReachableAgrees(hf, p, x);
      StagesNext(hf, x, j, app);
      StepReachable(hf, p, x, DeliverRequest(j + 1, app));
      z := Apply(hf, x, DeliverRequest(j + 1, app));
    }
  }

  lemma CommitsAll(hf: HashFn, y: System, app: AppFn)
    requires Agreement(hf, y) && Burst(y, |y.frozen|) && Staged(y, 1) && |y.frozen| >= 1
    ensures
      var t := OnRequest(hf, y.server, y.frozen[0], app).state;
      && t.maxPending >= y.server.maxPending && t.maxRespBuffer >= |t.respBuffer|
      && forall k :: 1 <= k <= |y.frozen| ==> k <= t.committedUpto || k in t.pendingReqs
  {
    hide ClientOk, MessagesOk, HistoryOk, OnceOk, CommitLoop;
    assert RequestOk(hf, y.frozen, 0, y.client.received);
    var s1 := Stage(Release(y.server, y.frozen[0]), y.frozen[0]);
    forall k | k in s1.pendingReqs ensures s1.pendingReqs[k].id == k {
      if k != 1 {
        assert RequestOk(hf, y.frozen, k - 1, y.client.received);
      }
    }
    CommitLoopAnswers(hf, s1, app);
    CommitLoopMax(hf, s1, app);
  }

  /** With nothing staged below n, nothing received and nothing lost, n answers are buffered. */
  lemma AllBuffered(hf: HashFn, p: Policy, z: System, n: nat)
    requires Good(hf, p, z) && Steady(hf, z) && z.client.received == {}
    requires forall k :: 1 <= k <= n ==> k <= z.server.committedUpto || k in z.server.pendingReqs
    ensures |z.server.respBuffer| >= n
  {
    hide Agreement, AcksOk;
    assert z.server.committedUpto + 1 !in z.server.pendingReqs;
    assert UpTo(n) <= z.server.respBuffer.Keys;
    SubsetSize(UpTo(n), z.server.respBuffer.Keys);
  }

  /** The first request arrives: all are committed, and all answers are buffered. */
  lemma FillsBuffer(hf: HashFn, p: Policy, y: System, app: AppFn)
    requires p.crashFree && Reachable(hf, p, y) && Burst(y, |y.frozen|) && Staged(y, 1) && |y.frozen| >= 1
    ensures
      var z := Apply(hf, y, DeliverRequest(1, app));
      && Reachable(hf, p, z) && z.frozen == y.frozen && z.client == y.client
      && z.server.maxPending >= y.server.maxPending && z.server.maxRespBuffer >= |y.frozen|
  {
    hide Reachable, Agreement, OnRequest, Good, Steady;
    var z := Apply(hf, y, DeliverRequest(1, app));
    StepReachable(hf, p, y, DeliverRequest(1, app));
    ReachableAgrees(hf, p, y);
    ReachableSteady(hf, p, z);
    CommitsAll(hf, y, app);
    AllBuffered(hf, p, z, |y.frozen|);
  }

  /** High-water marks only rise while the server lives. */
  lemma StepMarks(hf: HashFn, p: Policy, y: System, st: Step)
    requires p.crashFree && Enabled(p, y, st)
    ensures
      var s, t := y.server, Apply(hf, y, st).server;
      t.maxRespBuffer >= s.maxRespBuffer && t.maxPending >= s.maxPending
  {
    hide CommitLoop, OnResponse, GenerateRequest;
    match st
    case DeliverRequest(id, app) =>
      var s1 := Release(y.server, y.frozen[id - 1]);
      CommitLoopMax(hf, Stage(s1, y.frozen[id - 1]), app);
    case IngestReplay(b) => IngestMarks(hf, y.server, EventsOf(Unheld(y.server, b.replay)));
    case _ =>
  }

  lemma {:induction false} IngestMarks(hf: HashFn, s: ServerState, es: seq<Event>)
    ensures
      var t := IngestEvents(hf, s, es);
      t.maxRespBuffer == s.maxRespBuffer && t.maxPending == s.maxPending
    decreases |es|
  {
    if es != [] {
      IngestMarks(hf, IngestEvent(hf, s, es[0]), es[1..]);
    }
  }

  lemma {:induction false} PathMarks(hf: HashFn, p: Policy, ys: seq<System>, sts: seq<Step>, k: nat)
    requires p.crashFree && Path(hf, p, ys, sts) && k <= |sts|
    ensures ys[k].server.maxRespBuffer >= ys[0].server.maxRespBuffer
    ensures ys[k].server.maxPending >= ys[0].server.maxPending
  {
    hide Apply, Enabled;
    if k > 0 {
      PathMarks(hf, p, ys, sts, k - 1);
      assert Enabled(p, ys[k - 1], sts[k - 1]);
      StepMarks(hf, p, ys[k - 1], sts[k - 1]);
    }
  }

  lemma {:induction false} NothingAcknowledged(frozen: seq<Request>, k: nat)
    requires k <= |frozen| && forall x :: 0 <= x < |frozen| ==> frozen[x].ackNew == []
    ensures AckLog(frozen, k) == []
  {
    if k > 0 {
      NothingAcknowledged(frozen, k - 1);
    }
  }

  lemma AllPending(hf: HashFn, p: Policy, y: System)
    requires Good(hf, p, y) && y.client.inflight == map[]
    requires forall x :: 0 <= x < |y.frozen| ==> y.frozen[x].ackNew == []
    ensures |y.client.pendingNew| == |y.frozen|
  {
    hide ClientOk, ServerOk, MessagesOk, FrozenOk, NothingLost, AcksOk, AckLog;
    NothingAcknowledged(y.frozen, |y.frozen|);
    OutstandingCount(hf, y);
  }

  /** All answers received, none acknowledged: the next request acknowledges them all. */
  lemma AcknowledgesAll(hf: HashFn, p: Policy, y: System)
    requires Good(hf, p, y) && y.client.inflight == map[]
    requires forall x :: 0 <= x < |y.frozen| ==> y.frozen[x].ackNew == []
    ensures Apply(hf, y, Generate("")).client.maxAckNew >= |y.frozen|
  {
    hide Good, AppendAll;
    AllPending(hf, p, y);
  }

  /** For every window there is a crash-free conversation after which the response buffer has
      held exactly the window, staging one less, and one request has acknowledged the window. */
  lemma BoundsAttained(hf: HashFn, p: Policy, app: AppFn) returns (y: System)
    requires p.crashFree && p.window >= 1
    ensures Reachable(hf, p, y)
    ensures y.server.maxRespBuffer == p.window && y.server.maxPending == p.window - 1 && y.client.maxAckNew == p.window
  {
    hide Reachable, Good, Steady, Apply, Path;
    var a := Generates(hf, p, p.window);
    var b := StagesDown(hf, p, a, 1, app);
    FillsBuffer(hf, p, b, app);
    var c := Apply(hf, b, DeliverRequest(1, app));
    ReachableSteady(hf, p, c);
    var ys, sts := DrainInOrder(hf, p, c, app);
    PathEnds(hf, p, ys, sts);
    PathMarks(hf, p, ys, sts, |sts|);
    PathReachable(hf, p, ys, sts);
    var d := ys[|sts|];
    ReachableSteady(hf, p, d);
    AcknowledgesAll(hf, p, d);
    StepReachable(hf, p, d, Generate(""));
    StepMarks(hf, p, d, Generate(""));
    y := Apply(hf, d, Generate(""));
    ReachableWithin(hf, p, y);
  }

  lemma ReachableWithin(hf: HashFn, p: Policy, y: System)
    requires p.crashFree && Reachable(hf, p, y)
    ensures y.server.maxRespBuffer <= p.window && y.client.maxAckNew <= p.window
    ensures y.server.maxPending > 0 ==> y.server.maxPending < p.window
  {
    hide Run;
    var ys, sts :| EndsIn(hf, p, ys, sts, y);
    TightBounds(hf, p, ys, sts, |sts|);
  }
}
