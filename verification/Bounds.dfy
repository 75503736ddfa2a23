/** Exactly when each bound that the checker tests holds over all reachable states. */
module Bounds {
  import opened Messages
  import opened History
  import opened Client
  import opened Server
  import opened Commits
  import opened Protocol
  import opened Safety
  import opened Runs
  import opened Recovery
  import opened Restoration
  import opened Window
  import opened Progress
  import opened Reachability
  import opened Tightness
  import opened Checker
  import opened Failures

  // ---- a window of two: overtaken entries without bound ----

  /** A replay posted when 2j+2 requests were generated, and the second of the next two requests,
      which acknowledges nothing. */
  ghost predicate Rung(frozen: seq<Request>, replays: set<BuiltReplay>, j: nat) {
    && (exists b :: b in replays && b.replay.from == 0 && b.generated == 2 * j + 2)
    && 2 * j + 4 <= |frozen| && frozen[2 * j + 3].ackBase <= 2 * j + 3 && frozen[2 * j + 3].ackNew == []
  }

  ghost predicate Ladder(y: System, n: nat) {
    && |y.frozen| == 2 * n + 2 == y.server.committedUpto && y.client.inflight == map[] && 0 in y.signals
    && forall j :: 0 <= j < n ==> Rung(y.frozen, y.replays, j)
  }

  lemma LadderStart(hf: HashFn, w: nat, app: AppFn) returns (y: System)
    requires w >= 1
    ensures Reachable(hf, Policy(w, false, true), y) && Ladder(y, 0)
  {
    hide Reachable, Apply, FrozenRequest, Agreement, IsAnswer, NeedsRecover;
    var pc, p := Policy(w, true, true), Policy(w, false, true);
    InitReachable(hf, pc, true, true);
    var a := Exchange(hf, pc, Init(hf, true, true), app);
    ReachableAgrees(hf, pc, a);
    AllReceived(hf, a);
    var b := Asked(hf, pc, a, "");
    Loosen(hf, pc, p, b);
    var c := RecoveredAwaits(hf, p, b, 2, app);
    ReachableAgrees(hf, p, c);
    CommittedPlaced(hf, c, 2);
    var d, r := Committed(hf, p, c, 2, app);
    FrontierGenerated(hf, p, d);
    y := Received(hf, p, d, r, 2);
    assert y.client.inflight.Keys == {};
  }

  lemma CommittedPlaced(hf: HashFn, y: System, id: SeqNum)
    requires Agreement(hf, y) && 1 <= id <= |y.frozen| && id <= y.server.committedUpto + 1
    ensures !NeedsRecover(y.server, y.frozen[id - 1])
  {
    hide ClientOk, ServerOk, MessagesOk, NeedsRecover;
    assert RequestOk(hf, y.frozen, id - 1, y.client.received);
    Placed(y.server, y.frozen[id - 1]);
  }

  /** Deliver a request at the frontier, and its answer, whatever crashed before. */
  lemma Exchanged(hf: HashFn, p: Policy, y: System, id: SeqNum, app: AppFn) returns (z: System)
    requires p.quiescent && Reachable(hf, p, y)
    requires id in y.client.inflight && id <= y.server.committedUpto + 1 && 1 <= id <= |y.frozen|
    ensures Reachable(hf, p, z) && z.frozen == y.frozen && z.replays == y.replays && y.signals <= z.signals
    ensures z.client.inflight == y.client.inflight - {id} && z.server.committedUpto >= id
  {
    hide Reachable, Apply, Agreement, IsAnswer, NeedsRecover;
    ReachableAgrees(hf, p, y);
    CommittedPlaced(hf, y, id);
    var x, r := Committed(hf, p, y, id, app);
    z := Received(hf, p, x, r, id);
  }

  lemma Posted(hf: HashFn, p: Policy, y: System) returns (z: System)
    requires Reachable(hf, p, y) && 0 in y.signals
    ensures Reachable(hf, p, z) && z == y.(replays := z.replays) && y.replays <= z.replays
    ensures exists b :: b in z.replays && b.replay.from == 0 && b.generated == |y.frozen|
  {
    hide Reachable, BuildReplay;
    StepReachable(hf, p, y, PostReplay(0));
    z := Apply(hf, y, PostReplay(0));
    ReplayLength(y.client, 0);
    var b := BuiltReplay(BuildReplay(y.client, 0), |y.frozen|);
    assert b in z.replays;
  }

  /** Two requests more; the second acknowledges nothing new. */
  lemma AskedTwice(hf: HashFn, p: Policy, y: System) returns (z: System)
    requires p.window >= 2 && Reachable(hf, p, y) && y.client.inflight == map[]
    ensures Reachable(hf, p, z) && z == y.(client := z.client, frozen := z.frozen)
    ensures |z.frozen| == |y.frozen| + 2 && y.frozen <= z.frozen
    ensures z.client.inflight.Keys == {|y.frozen| + 1, |y.frozen| + 2}
    ensures
      var r := z.frozen[|y.frozen| + 1];
      r.ackBase == |y.frozen| + 1 && r.ackNew == []
  {
    hide Reachable, Apply, FrozenRequest, Agreement;
    ReachableAgrees(hf, p, y);
    AllReceived(hf, y);
    var b := Asked(hf, p, y, "");
    assert b.client.inflight.Keys == {|y.frozen| + 1};
    assert |b.client.inflight.Keys| == 1;
    z := Asked(hf, p, b, "");
  }

  lemma LadderNext(hf: HashFn, p: Policy, y: System, n: nat, app: AppFn) returns (z: System)
    requires p.quiescent && p.window >= 2 && Reachable(hf, p, y) && Ladder(y, n)
    ensures Reachable(hf, p, z) && Ladder(z, n + 1)
  {
    hide Reachable;
    var a := Posted(hf, p, y);
    var c := AskedTwice(hf, p, a);
    var d := Exchanged(hf, p, c, 2 * n + 3, app);
    z := Exchanged(hf, p, d, 2 * n + 4, app);
    FrontierGenerated(hf, p, z);
    assert z.client.inflight.Keys == {};
    assert Rung(z.frozen, z.replays, n);
    RungsStay(y, z, n);
  }

  lemma RungsStay(y: System, z: System, n: nat)
    requires y.frozen <= z.frozen && y.replays <= z.replays
    requires forall j :: 0 <= j < n ==> Rung(y.frozen, y.replays, j)
    ensures forall j :: 0 <= j < n ==> Rung(z.frozen, z.replays, j)
  {
    hide Rung;
    forall j | 0 <= j < n ensures Rung(z.frozen, z.replays, j) {
      RungStays(y.frozen, z.frozen, y.replays, z.replays, j);
    }
  }

  lemma RungStays(a: seq<Request>, b: seq<Request>, r: set<BuiltReplay>, s: set<BuiltReplay>, j: nat)
    requires Rung(a, r, j) && a <= b && r <= s
    ensures Rung(b, s, j)
  {
  }

  lemma {:induction false} LadderRun(hf: HashFn, w: nat, n: nat, app: AppFn) returns (y: System)
    requires w >= 2
    ensures Reachable(hf, Policy(w, false, true), y) && Ladder(y, n)
  {
    hide Reachable, Ladder;
    if n == 0 {
      y := LadderStart(hf, w, app);
    } else {
      var x := LadderRun(hf, w, n - 1, app);
      y := LadderNext(hf, Policy(w, false, true), x, n - 1, app);
    }
  }

  ghost function Evens(m: nat): (s: set<SeqNum>)
    ensures |s| == m && forall k :: k in s ==> k % 2 == 0 && 4 <= k <= 2 * m + 2
  {
    if m == 0 then {} else Evens(m - 1) + {2 * m + 2}
  }

  ghost predicate Climbed(y: System, m: nat) {
    y.server.committedUpto == 2 * m && y.server.pendingReqs.Keys == Evens(m) && y.server.maxPending >= m
  }

  /** Ingest the replay: the frontier jumps over what is staged, which stays in the table. */
  lemma Jumped(hf: HashFn, p: Policy, y: System, m: nat) returns (z: System)
    requires Reachable(hf, p, y) && Climbed(y, m) && Rung(y.frozen, y.replays, m)
    ensures Reachable(hf, p, z) && z == y.(server := z.server)
    ensures z.server.committedUpto == 2 * m + 2
    ensures z.server.pendingReqs == y.server.pendingReqs && z.server.maxPending == y.server.maxPending
  {
    hide Reachable, FrozenOk, ClientOk, ServerOk;
    var b :| b in y.replays && b.replay.from == 0 && b.generated == 2 * m + 2;
    StepReachable(hf, p, y, IngestReplay(b));
    z := Apply(hf, y, IngestReplay(b));
    ReachableAgrees(hf, p, y);
    IngestOk(hf, y.server, y.frozen, y.client.received, b);
    var es := EventsOf(Unheld(y.server, b.replay));
    IngestStaging(hf, y.server, es);
    IngestMarks(hf, y.server, es);
  }

  lemma ClimbNext(hf: HashFn, p: Policy, y: System, m: nat, app: AppFn) returns (z: System)
    requires Reachable(hf, p, y) && Climbed(y, m) && Rung(y.frozen, y.replays, m)
    ensures Reachable(hf, p, z) && z.frozen == y.frozen && z.replays == y.replays && z.client == y.client
    ensures Climbed(z, m + 1)
  {
    hide Reachable, OnRequest, Agreement;
    var x := Jumped(hf, p, y, m);
    var id := 2 * m + 4;
    ReachableAgrees(hf, p, x);
    AgreedId(hf, x, id);
    assert 2 * m + 3 !in Evens(m);
    StagesOne(hf, x.server, x.frozen[id - 1], app);
    StepReachable(hf, p, x, DeliverRequest(id, app));
    z := Apply(hf, x, DeliverRequest(id, app));
    assert z.server.pendingReqs.Keys == Evens(m + 1);
    assert |z.server.pendingReqs.Keys| == m + 1;
  }

  lemma {:induction false} Climb(hf: HashFn, p: Policy, y: System, m: nat, app: AppFn) returns (z: System)
    requires Reachable(hf, p, y) && Climbed(y, 0) && forall j :: 0 <= j < m ==> Rung(y.frozen, y.replays, j)
    ensures Reachable(hf, p, z) && z.frozen == y.frozen && z.replays == y.replays && z.client == y.client
    ensures Climbed(z, m)
  {
    hide Reachable, Climbed, Rung;
    if m == 0 {
      z := y;
    } else {
      var x := Climb(hf, p, y, m - 1, app);
      z := ClimbNext(hf, p, x, m - 1, app);
    }
  }

  /** With a window of two or more and failovers, the staging table holds any number of requests
      with nothing outstanding at all: what replays overtake is never removed. */
  lemma TableUnbounded(hf: HashFn, w: nat, n: nat, app: AppFn) returns (y: System)
    requires w >= 2
    ensures Reachable(hf, Policy(w, false, true), y) && y.client.inflight == map[]
    ensures |y.server.pendingReqs| == n && y.server.maxPending >= n
  {
    hide Reachable, Apply;
    var p := Policy(w, false, true);
    var a := LadderRun(hf, w, n, app);
    CrashReachable(hf, p, a);
    var b := Apply(hf, a, Crash(EmptyCheckpoint(hf)));
    y := Climb(hf, p, b, n, app);
    assert |y.server.pendingReqs.Keys| == n;
  }

  // ---- a window of one: nothing is ever staged ----

  ghost predicate Narrow(y: System) {
    && (forall k :: 0 <= k < |y.frozen| ==> y.frozen[k].ackBase == k + 1)
    && y.server.pendingReqs == map[] && y.server.maxPending == 0
  }

  lemma NarrowGenerates(hf: HashFn, p: Policy, y: System, payload: string)
    requires p.window <= 1 && Agreement(hf, y) && Narrow(y) && Enabled(p, y, Generate(payload))
    ensures Narrow(Apply(hf, y, Generate(payload)))
  {
    hide Agreement, AppendAll;
    assert |y.client.inflight.Keys| == 0;
    assert y.client.inflight == map[];
    AllReceived(hf, y);
  }

  /** A request that acknowledges everything before it is committed at once or not placed at all. */
  lemma NarrowHandles(hf: HashFn, s: ServerState, req: Request, app: AppFn)
    requires s.pendingReqs == map[] && s.maxPending == 0 && req.ackBase == req.id
    ensures
      var t := OnRequest(hf, s, req, app).state;
      t.pendingReqs == map[] && t.maxPending == 0
  {
    hide CommitLoop;
    if !NeedsRecover(s, req) && req.id > s.committedUpto {
      var s1 := Stage(Release(s, req), req);
      CommitLoopAnswers(hf, s1, app);
      CommitLoopMax(hf, s1, app);
      var t := CommitLoop(hf, s1, app).state;
      assert t.committedUpto + 1 !in t.pendingReqs;
      assert req.id !in t.pendingReqs;
      assert t.pendingReqs == map[];
    }
  }

  lemma StepNarrow(hf: HashFn, p: Policy, y: System, st: Step)
    requires p.window <= 1 && Agreement(hf, y) && Narrow(y) && Enabled(p, y, st)
    ensures Narrow(Apply(hf, y, st))
  {
    hide Agreement, OnRequest, Restore, OnResponse, AppendAll;
    match st
    case Generate(payload) => NarrowGenerates(hf, p, y, payload);
    case DeliverRequest(id, app) =>
      AgreedId(hf, y, id);
      NarrowHandles(hf, y.server, y.frozen[id - 1], app);
    case IngestReplay(b) =>
      IngestStaging(hf, y.server, EventsOf(Unheld(y.server, b.replay)));
      IngestMarks(hf, y.server, EventsOf(Unheld(y.server, b.replay)));
    case Crash(cp) => RestoreBlank(cp, y.server.setHash);
    case _ =>
  }

  lemma {:induction false} RunNarrow(hf: HashFn, p: Policy, ys: seq<System>, sts: seq<Step>, k: nat)
    requires p.window <= 1 && Run(hf, p, ys, sts) && k <= |sts|
    ensures Narrow(ys[k])
  {
    hide Agreement, Apply, Enabled;
    if k > 0 {
      RunNarrow(hf, p, ys, sts, k - 1);
      RunAgrees(hf, p, ys, sts, k - 1);
      assert Enabled(p, ys[k - 1], sts[k - 1]);
      StepNarrow(hf, p, ys[k - 1], sts[k - 1]);
    }
  }

  // ---- a window of zero: nothing happens ----

  ghost predicate Silent(y: System) {
    y.frozen == [] && y.server.maxRespBuffer == 0
  }

  lemma StepSilent(hf: HashFn, p: Policy, y: System, st: Step)
    requires p.window == 0 && Silent(y) && Enabled(p, y, st)
    ensures Silent(Apply(hf, y, st))
  {
    hide OnRequest, Restore, OnResponse, AppendAll;
    match st
    case IngestReplay(b) => IngestMarks(hf, y.server, EventsOf(Unheld(y.server, b.replay)));
    case Crash(cp) => RestoreBlank(cp, y.server.setHash);
    case _ =>
  }

  lemma {:induction false} RunSilent(hf: HashFn, p: Policy, ys: seq<System>, sts: seq<Step>, k: nat)
    requires p.window == 0 && Run(hf, p, ys, sts) && k <= |sts|
    ensures Silent(ys[k])
  {
    hide Apply, Enabled;
    if k > 0 {
      RunSilent(hf, p, ys, sts, k - 1);
      assert Enabled(p, ys[k - 1], sts[k - 1]);
      StepSilent(hf, p, ys[k - 1], sts[k - 1]);
    }
  }

  // ---- the exact conditions ----

  lemma StagingWithin(hf: HashFn, p: Policy, y: System)
    requires (p.crashFree || p.window <= 1) && Reachable(hf, p, y)
    ensures y.server.maxPending <= p.window
  {
    hide Run;
    if p.crashFree {
      ReachableWithin(hf, p, y);
    } else {
      var ys, sts :| EndsIn(hf, p, ys, sts, y);
      RunNarrow(hf, p, ys, sts, |sts|);
    }
  }

  lemma BufferWithin(hf: HashFn, p: Policy, y: System)
    requires (p.crashFree || p.window == 0) && Reachable(hf, p, y)
    ensures y.server.maxRespBuffer <= p.window
  {
    hide Run;
    if p.crashFree {
      ReachableWithin(hf, p, y);
    } else {
      var ys, sts :| EndsIn(hf, p, ys, sts, y);
      RunSilent(hf, p, ys, sts, |sts|);
    }
  }

  ghost predicate StagingBelow(hf: HashFn, p: Policy, bound: nat) {
    forall y :: Reachable(hf, p, y) ==> y.server.maxPending <= bound
  }

  /** The staging table has a bound, and then the window is one, exactly without failovers or with
      a window of at most one. */
  lemma StagingBoundedExactly(hf: HashFn, p: Policy, app: AppFn)
    ensures (exists bound: nat :: StagingBelow(hf, p, bound)) <==> p.crashFree || p.window <= 1
    ensures StagingBelow(hf, p, p.window) <==> p.crashFree || p.window <= 1
  {
    hide Reachable;
    if p.crashFree || p.window <= 1 {
      forall y | Reachable(hf, p, y) ensures y.server.maxPending <= p.window {
        StagingWithin(hf, p, y);
      }
      assert StagingBelow(hf, p, p.window);
    } else {
      forall bound: nat ensures !StagingBelow(hf, p, bound) {
        var y := TableUnbounded(hf, p.window, bound + 1, app);
        Loosen(hf, Policy(p.window, false, true), p, y);
      }
    }
  }

  /** The response buffer keeps within the window exactly without failovers or with no window. */
  lemma BufferBoundedExactly(hf: HashFn, p: Policy, app: AppFn)
    ensures (forall y :: Reachable(hf, p, y) ==> y.server.maxRespBuffer <= p.window) <==>
      p.crashFree || p.window == 0
  {
    hide Reachable;
    if p.crashFree || p.window == 0 {
      forall y | Reachable(hf, p, y) ensures y.server.maxRespBuffer <= p.window {
        BufferWithin(hf, p, y);
      }
    } else {
      var y := BufferOverRun(hf, p.window, app);
      Loosen(hf, Policy(p.window, false, true), p, y);
    }
  }

  lemma AcksWithin(hf: HashFn, p: Policy, y: System)
    requires Reachable(hf, p, y)
    ensures y.client.maxAckNew <= p.window
  {
    hide Run;
    var ys, sts :| EndsIn(hf, p, ys, sts, y);
    ClientBounds(hf, p, ys, sts, |sts|);
  }

  /** So the checker's bounds hold of every reachable state, with the window as the bound, exactly
      without failovers or with no window. */
  lemma BoundsHoldExactly(hf: HashFn, p: Policy, app: AppFn)
    ensures (forall y :: Reachable(hf, p, y) ==> BoundsHold(y.client, y.server, p.window)) <==>
      p.crashFree || p.window == 0
  {
    hide Reachable;
    BufferBoundedExactly(hf, p, app);
    if p.crashFree || p.window == 0 {
      forall y | Reachable(hf, p, y) ensures BoundsHold(y.client, y.server, p.window) {
        StagingWithin(hf, p, y);
        AcksWithin(hf, p, y);
      }
    }
  }
}
