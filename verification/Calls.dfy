/** What the application is called with. It sees the history up to its own request when the commit
    loop calls it, and up to the frontier when a request that a replay left awaiting is answered;
    so calls come in id order exactly unless such an answer comes after one for a later id. */
module Calls {
  import opened Messages
  import opened History
  import opened Canon
  import opened Client
  import opened Server
  import opened Protocol
  import opened Safety
  import opened Runs
  import opened Recovery
  import opened Restoration
  import opened Reachability
  import opened Failures
  import opened Bounds

  /** The call was for a request of the client's, and saw the history cut just after `R<m>`. */
  ghost predicate Saw(hf: HashFn, frozen: seq<Request>, c: AppCall, m: nat) {
    1 <= c.id <= m <= |frozen| && c.payload == frozen[c.id - 1].payload && Represents(hf, c.seen, Cut(frozen, m))
  }

  ghost predicate SawSome(hf: HashFn, frozen: seq<Request>, c: AppCall, upto: nat) {
    exists m: nat :: m <= upto && Saw(hf, frozen, c, m)
  }

  // ---- the calls of one delivery ----

  lemma CommitCall(hf: HashFn, s: ServerState, frozen: seq<Request>, received: set<SeqNum>, app: AppFn)
    requires FrozenOk(hf, frozen, received) && ServerOk(hf, s, frozen) && s.committedUpto + 1 in s.pendingReqs
    ensures
      var t := CommitNext(hf, s, app);
      var id := s.committedUpto + 1;
      && |t.calls| == |s.calls| + 1 && t.calls[..|s.calls|] == s.calls && t.committedUpto == id
      && t.calls[|s.calls|].id == id && Saw(hf, frozen, t.calls[|s.calls|], id)
  {
    hide Cut, Represents, AppendAll, HashAt, Block;
    assert RequestOk(hf, frozen, s.committedUpto, received);
    RecordOk(hf, s, frozen);
  }

  /** New calls: for the ids above c in order, each seeing the history up to itself. */
  ghost predicate InTurn(hf: HashFn, frozen: seq<Request>, calls: seq<AppCall>, from: nat, c: nat)
    requires from <= |calls|
  {
    forall i :: from <= i < |calls| ==> calls[i].id == c + 1 + i - from && Saw(hf, frozen, calls[i], calls[i].id)
  }

  lemma {:induction false} LoopCalls(
      hf: HashFn, s: ServerState, frozen: seq<Request>, received: set<SeqNum>, app: AppFn)
    requires FrozenOk(hf, frozen, received) && ServerOk(hf, s, frozen)
    ensures
      var t := CommitLoop(hf, s, app).state;
      && |t.calls| >= |s.calls| && t.calls[..|s.calls|] == s.calls
      && |t.calls| - |s.calls| == t.committedUpto - s.committedUpto
      && InTurn(hf, frozen, t.calls, |s.calls|, s.committedUpto)
    decreases |s.pendingReqs|
  {
    hide FrozenOk, ServerOk, Saw, CommitNext;
    if s.committedUpto + 1 in s.pendingReqs {
      var s' := CommitNext(hf, s, app);
      CommitLoopTurn(hf, s, app, []);
      CommitCall(hf, s, frozen, received, app);
      CommitNextOk(hf, s, frozen, received, app);
      LoopCalls(hf, s', frozen, received, app);
      var t := CommitLoop(hf, s, app).state;
      assert t.calls[|s.calls|] == t.calls[..|s'.calls|][|s.calls|];
      assert t.calls[..|s.calls|] == t.calls[..|s'.calls|][..|s.calls|];
    }
  }

  /** A request that awaits an answer, asked for where the server can place it. */
  predicate Awaited(s: ServerState, req: Request) {
    !NeedsRecover(s, req) && req.id <= s.committedUpto && req.id in s.awaiting && req.id !in Release(s, req).respBuffer
  }

  lemma AwaitedCall(hf: HashFn, s: ServerState, req: Request, app: AppFn)
    requires Awaited(s, req)
    ensures
      var t := OnRequest(hf, s, req, app).state;
      && t.calls == s.calls + [AppCall(req.id, req.payload, s.history, app(req.id, req.payload, s.history))]
      && t.committedUpto == s.committedUpto
  {
  }

  lemma NoCall(hf: HashFn, s: ServerState, req: Request, app: AppFn)
    requires !Awaited(s, req) && (NeedsRecover(s, req) || req.id <= s.committedUpto)
    ensures
      var t := OnRequest(hf, s, req, app).state;
      t.calls == s.calls && t.committedUpto == s.committedUpto
  {
  }

  /** What one delivery calls the application for: the requests it commits, in id order, each seeing
      the history up to itself; or the request alone, if it awaits, seeing the history up to the
      frontier; or nothing. */
  lemma DeliveryCalls(hf: HashFn, y: System, id: SeqNum, app: AppFn)
    requires Agreement(hf, y) && 1 <= id <= |y.frozen|
    ensures
      var s, req := y.server, y.frozen[id - 1];
      var t := OnRequest(hf, s, req, app).state;
      && |t.calls| >= |s.calls| && t.calls[..|s.calls|] == s.calls && t.committedUpto >= s.committedUpto
      && (!NeedsRecover(s, req) && id > s.committedUpto ==>
            && |t.calls| - |s.calls| == t.committedUpto - s.committedUpto
            && InTurn(hf, y.frozen, t.calls, |s.calls|, s.committedUpto))
      && (Awaited(s, req) ==>
            && |t.calls| == |s.calls| + 1 && t.calls[|s.calls|].id == id
            && Saw(hf, y.frozen, t.calls[|s.calls|], s.committedUpto))
      && (!Awaited(s, req) && (NeedsRecover(s, req) || id <= s.committedUpto) ==> t.calls == s.calls)
  {
    hide OnRequest, NeedsRecover, ClientOk, MessagesOk, TablesOk, OnceOk, Represents, Cut, HashAt;
    var s, req := y.server, y.frozen[id - 1];
    assert RequestOk(hf, y.frozen, id - 1, y.client.received);
    if Awaited(s, req) {
      AwaitedCall(hf, s, req, app);
    } else if NeedsRecover(s, req) || id <= s.committedUpto {
      NoCall(hf, s, req, app);
    } else {
      PlacedCalls(hf, y, id, app);
    }
  }

  lemma PlacedCalls(hf: HashFn, y: System, id: SeqNum, app: AppFn)
    requires Agreement(hf, y) && 1 <= id <= |y.frozen|
    requires !NeedsRecover(y.server, y.frozen[id - 1]) && id > y.server.committedUpto
    ensures
      var s := y.server;
      var t := OnRequest(hf, s, y.frozen[id - 1], app).state;
      && |t.calls| >= |s.calls| && t.calls[..|s.calls|] == s.calls
      && |t.calls| - |s.calls| == t.committedUpto - s.committedUpto
      && InTurn(hf, y.frozen, t.calls, |s.calls|, s.committedUpto)
  {
    hide NeedsRecover, ServerOk, ClientOk, MessagesOk, CommitLoop, InTurn, HashAt;
    var s, req := y.server, y.frozen[id - 1];
    assert RequestOk(hf, y.frozen, id - 1, y.client.received);
    ReleaseOk(hf, s, y.frozen, req);
    StageOk(hf, Release(s, req), y.frozen, id);
    LoopCalls(hf, Stage(Release(s, req), req), y.frozen, y.client.received, app);
  }

  // ---- every call of every run ----

  ghost predicate CallsSeen(hf: HashFn, y: System) {
    forall j :: 0 <= j < |y.server.calls| ==> SawSome(hf, y.frozen, y.server.calls[j], y.server.committedUpto)
  }

  lemma StillSaw(hf: HashFn, a: seq<Request>, b: seq<Request>, c: AppCall, upto: nat, more: nat)
    requires SawSome(hf, a, c, upto) && a <= b && upto <= more
    ensures SawSome(hf, b, c, more)
  {
    hide Cut, Represents;
    var m: nat :| m <= upto && Saw(hf, a, c, m);
    CutExtend(a, b, m);
    assert Saw(hf, b, c, m);
  }

  lemma DeliverySeen(hf: HashFn, y: System, id: SeqNum, app: AppFn)
    requires Agreement(hf, y) && CallsSeen(hf, y) && 1 <= id <= |y.frozen|
    ensures CallsSeen(hf, Apply(hf, y, DeliverRequest(id, app)))
  {
    hide Agreement, OnRequest, NeedsRecover, Awaited, Saw;
    DeliveryCalls(hf, y, id, app);
    var s, z := y.server, Apply(hf, y, DeliverRequest(id, app));
    var t := z.server;
    forall j | 0 <= j < |t.calls| ensures SawSome(hf, y.frozen, t.calls[j], t.committedUpto) {
      if j < |s.calls| {
        assert t.calls[j] == t.calls[..|s.calls|][j];
        StillSaw(hf, y.frozen, y.frozen, s.calls[j], s.committedUpto, t.committedUpto);
      } else if Awaited(s, y.frozen[id - 1]) {
        assert Saw(hf, y.frozen, t.calls[j], s.committedUpto);
      } else {
        assert Saw(hf, y.frozen, t.calls[j], t.calls[j].id);
      }
    }
  }

  lemma StepSeen(hf: HashFn, p: Policy, y: System, st: Step)
    requires Agreement(hf, y) && CallsSeen(hf, y) && Enabled(p, y, st)
    ensures CallsSeen(hf, Apply(hf, y, st))
  {
    hide Agreement, OnRequest, Restore, OnResponse, AppendAll, SawSome;
    match st
    case DeliverRequest(id, app) => DeliverySeen(hf, y, id, app);
    case Crash(cp) => RestoreBlank(cp, y.server.setHash);
    case IngestReplay(b) =>
      var es := EventsOf(Unheld(y.server, b.replay));
      IngestCallsNothing(hf, y.server, es);
      IngestCounts(hf, y.server, es);
      SameCalls(hf, y, Apply(hf, y, st));
    case _ => SameCalls(hf, y, Apply(hf, y, st));
  }

  lemma SameCalls(hf: HashFn, y: System, z: System)
    requires CallsSeen(hf, y) && z.server.calls == y.server.calls
    requires y.frozen <= z.frozen && y.server.committedUpto <= z.server.committedUpto
    ensures CallsSeen(hf, z)
  {
    hide SawSome;
    forall j | 0 <= j < |z.server.calls| ensures SawSome(hf, z.frozen, z.server.calls[j], z.server.committedUpto) {
      StillSaw(hf, y.frozen, z.frozen, y.server.calls[j], y.server.committedUpto, z.server.committedUpto);
    }
  }

  /** In every run, whatever crashed, each call of the live server was for a request of the client's
      and saw the history cut at or after that request, never past the frontier. */
  lemma {:induction false} CallsSawCuts(hf: HashFn, p: Policy, ys: seq<System>, sts: seq<Step>, k: nat)
    requires Run(hf, p, ys, sts) && k <= |sts|
    ensures CallsSeen(hf, ys[k])
  {
    hide Agreement, Apply, Enabled, SawSome;
    if k > 0 {
      CallsSawCuts(hf, p, ys, sts, k - 1);
      RunAgrees(hf, p, ys, sts, k - 1);
      assert Enabled(p, ys[k - 1], sts[k - 1]);
      StepSeen(hf, p, ys[k - 1], sts[k - 1]);
    }
  }

  // ---- in id order ----

  ghost predicate InOrder(s: ServerState) {
    forall i, j :: 0 <= i < j < |s.calls| ==> s.calls[i].id < s.calls[j].id
  }

  /** An awaited request is answered after a later one was. */
  predicate Belated(s: ServerState, req: Request) {
    Awaited(s, req) && s.calls != [] && s.calls[|s.calls| - 1].id > req.id
  }

  ghost predicate BelatedStep(y: System, st: Step) {
    st.DeliverRequest? && 1 <= st.id <= |y.frozen| && Belated(y.server, y.frozen[st.id - 1])
  }

  lemma DeliveryOrderExactly(hf: HashFn, y: System, id: SeqNum, app: AppFn)
    requires Agreement(hf, y) && InOrder(y.server) && 1 <= id <= |y.frozen|
    ensures InOrder(OnRequest(hf, y.server, y.frozen[id - 1], app).state) <==> !Belated(y.server, y.frozen[id - 1])
  {
    hide OnRequest, NeedsRecover, Awaited, Saw, ClientOk, MessagesOk, HistoryOk, HashAt;
    DeliveryCalls(hf, y, id, app);
    var s, req := y.server, y.frozen[id - 1];
    var t := OnRequest(hf, s, req, app).state;
    assert RequestOk(hf, y.frozen, id - 1, y.client.received);
    forall j | 0 <= j < |s.calls| ensures t.calls[j] == s.calls[j] && s.calls[j].id <= s.committedUpto {
      assert t.calls[j] == t.calls[..|s.calls|][j];
    }
    if Awaited(s, req) {
      CalledOnce(hf, y, id);
      if s.calls != [] {
        assert t.calls[|s.calls| - 1] == s.calls[|s.calls| - 1];
      }
    }
  }

  lemma CalledOnce(hf: HashFn, y: System, id: SeqNum)
    requires Agreement(hf, y) && 1 <= id <= |y.frozen| && Awaited(y.server, y.frozen[id - 1])
    ensures y.frozen[id - 1].id == id && forall j :: 0 <= j < |y.server.calls| ==> y.server.calls[j].id != id
  {
    hide NeedsRecover, ClientOk, MessagesOk, HistoryOk, TablesOk, HashAt;
    assert RequestOk(hf, y.frozen, id - 1, y.client.received);
  }

  lemma StepOrderExactly(hf: HashFn, p: Policy, y: System, st: Step)
    requires Agreement(hf, y) && InOrder(y.server) && Enabled(p, y, st)
    ensures InOrder(Apply(hf, y, st).server) <==> !BelatedStep(y, st)
  {
    hide Agreement, OnRequest, Restore, OnResponse, GenerateRequest, Belated;
    match st
    case DeliverRequest(id, app) => DeliveryOrderExactly(hf, y, id, app);
    case Crash(cp) => RestoreBlank(cp, y.server.setHash);
    case IngestReplay(b) => IngestCallsNothing(hf, y.server, EventsOf(Unheld(y.server, b.replay)));
    case _ =>
  }

  /** In every run the application is called in id order, in each incarnation, all along exactly when
      no awaited request is answered after a later one was. */
  lemma {:induction false} OrderKeptExactly(hf: HashFn, p: Policy, ys: seq<System>, sts: seq<Step>, k: nat)
    requires Run(hf, p, ys, sts) && k <= |sts|
    ensures
      (forall j :: 0 <= j <= k ==> InOrder(ys[j].server)) <==>
      (forall j {:trigger sts[j]} :: 0 <= j < k ==> !BelatedStep(ys[j], sts[j]))
  {
    hide Agreement, Apply, Enabled, InOrder, BelatedStep, Init;
    if k == 0 {
      NoneCalled(hf, p, ys, sts);
    } else {
      OrderKeptExactly(hf, p, ys, sts, k - 1);
      if InOrder(ys[k - 1].server) {
        RunAgrees(hf, p, ys, sts, k - 1);
        assert Enabled(p, ys[k - 1], sts[k - 1]);
        StepOrderExactly(hf, p, ys[k - 1], sts[k - 1]);
      }
    }
  }

  lemma NoneCalled(hf: HashFn, p: Policy, ys: seq<System>, sts: seq<Step>)
    requires Run(hf, p, ys, sts)
    ensures InOrder(ys[0].server)
  {
  }

  /** A run in which it is not: two requests that a replay left awaiting, retried in the other order. */
  lemma OutOfOrderRun(hf: HashFn, app: AppFn) returns (z: System)
    ensures Reachable(hf, Policy(2, false, true), z)
    ensures |z.server.calls| == 2 && z.server.calls[0].id == 3 && z.server.calls[1].id == 2 && !InOrder(z.server)
  {
    hide Reachable, Apply, FrozenRequest, Agreement, NeedsRecover, OnRequest, Release;
    var pc, p := Policy(2, true, true), Policy(2, false, true);
    InitReachable(hf, pc, true, true);
    var a := Exchange(hf, pc, Init(hf, true, true), app);
    ReachableAgrees(hf, pc, a);
    AllReceived(hf, a);
    var b := Asked(hf, pc, a, "");
    assert b.client.inflight.Keys == {2};
    assert |b.client.inflight.Keys| == 1;
    var c := Asked(hf, pc, b, "");
    Loosen(hf, pc, p, c);
    var d := RecoveredAwaits(hf, p, c, 2, app);
    var e := Retried(hf, p, d, 3, app);
    z := Retried(hf, p, e, 2, app);
  }

  lemma Retried(hf: HashFn, p: Policy, y: System, id: SeqNum, app: AppFn) returns (z: System)
    requires Reachable(hf, p, y) && 1 <= id <= |y.frozen| && id in y.server.awaiting
    ensures Reachable(hf, p, z) && z.frozen == y.frozen && z.client == y.client
    ensures |z.server.calls| == |y.server.calls| + 1 && z.server.calls[..|y.server.calls|] == y.server.calls
    ensures z.server.calls[|y.server.calls|].id == id
    ensures forall i :: i in y.server.awaiting && i != id ==> i in z.server.awaiting
  {
    hide Reachable, Agreement, NeedsRecover, OnRequest;
    ReachableAgrees(hf, p, y);
    AwaitsCommitted(hf, y);
    AgreedId(hf, y, id);
    CommittedPlaced(hf, y, id);
    assert Awaited(y.server, y.frozen[id - 1]);
    AwaitedCall(hf, y.server, y.frozen[id - 1], app);
    StillAwaits(hf, y.server, y.frozen[id - 1], app);
    StepReachable(hf, p, y, DeliverRequest(id, app));
    z := Apply(hf, y, DeliverRequest(id, app));
  }

  // ---- the counts ----

  function CallsFor(calls: seq<AppCall>, id: SeqNum): nat {
    if calls == [] then 0 else
      var n := |calls| - 1;
      CallsFor(calls[..n], id) + if calls[n].id == id then 1 else 0
  }

  /** The count kept for each id is the number of calls made for it. */
  ghost predicate Tallied(s: ServerState) {
    forall id :: CallsFor(s.calls, id) == if id in s.appCalls then s.appCalls[id] else 0
  }

  lemma TallyNext(s: ServerState, t: ServerState, call: AppCall)
    requires Tallied(s) && t.calls == s.calls + [call] && t.appCalls == Bump(s.appCalls, call.id)
    ensures Tallied(t)
  {
    assert t.calls[..|t.calls| - 1] == s.calls;
  }

  lemma TallyKept(s: ServerState, t: ServerState)
    requires Tallied(s) && t.calls == s.calls && t.appCalls == s.appCalls
    ensures Tallied(t)
  {
  }

  lemma {:induction false} LoopTallied(hf: HashFn, s: ServerState, app: AppFn)
    requires Tallied(s)
    ensures Tallied(CommitLoop(hf, s, app).state)
    decreases |s.pendingReqs|
  {
    hide Tallied, AppendAll, Bump;
    if s.committedUpto + 1 in s.pendingReqs {
      var t := CommitNext(hf, s, app);
      TallyNext(s, t, t.calls[|s.calls|]);
      LoopTallied(hf, t, app);
    }
  }

  lemma OnRequestTallied(hf: HashFn, s: ServerState, req: Request, app: AppFn)
    requires Tallied(s)
    ensures Tallied(OnRequest(hf, s, req, app).state)
  {
    hide Tallied, CommitLoop, Bump, NeedsRecover, AnswerCommitted;
    var s1 := Release(s, req);
    TallyKept(s, s1);
    TallyKept(s, Stage(s1, req));
    LoopTallied(hf, Stage(s1, req), app);
    AnswerTallied(s1, req, app);
    var t := if req.id <= s.committedUpto then AnswerCommitted(s1, req, app).state
             else CommitLoop(hf, Stage(s1, req), app).state;
    TallyKept(t, TrackBounds(t));
  }

  lemma AnswerTallied(s: ServerState, req: Request, app: AppFn)
    requires Tallied(s)
    ensures Tallied(AnswerCommitted(s, req, app).state)
  {
    hide Tallied, Bump;
    var t := AnswerCommitted(s, req, app).state;
    if t.calls == s.calls {
      TallyKept(s, t);
    } else {
      TallyNext(s, t, t.calls[|s.calls|]);
    }
  }

  lemma {:induction false} IngestTallied(hf: HashFn, s: ServerState, es: seq<Event>)
    requires Tallied(s)
    ensures Tallied(IngestEvents(hf, s, es))
    decreases |es|
  {
    hide Tallied;
    if es != [] {
      TallyKept(s, IngestEvent(hf, s, es[0]));
      IngestTallied(hf, IngestEvent(hf, s, es[0]), es[1..]);
    }
  }

  /** Whatever requests and replays a server is given from its start on, the count for each id is the
      number of times the application was called for it. */
  lemma CountsTally(hf: HashFn, cp: Checkpoint, setHash: bool, ops: seq<Op>)
    ensures Tallied(PerformAll(hf, InitServer(hf, setHash), ops).state)
    ensures Tallied(PerformAll(hf, Restore(cp, setHash), ops).state)
  {
    hide PerformAll, Restore;
    RestoreBlank(cp, setHash);
    PerformTallied(hf, InitServer(hf, setHash), ops);
    PerformTallied(hf, Restore(cp, setHash), ops);
  }

  lemma {:induction false} PerformTallied(hf: HashFn, s: ServerState, ops: seq<Op>)
    requires Tallied(s)
    ensures Tallied(PerformAll(hf, s, ops).state)
    decreases |ops|
  {
    hide Tallied, OnRequest;
    if ops != [] {
      match ops[0] {
        case Ask(req, app) => OnRequestTallied(hf, s, req, app);
        case Feed(rp) => IngestTallied(hf, s, EventsOf(Unheld(s, rp)));
      }
      PerformTallied(hf, Perform(hf, s, ops[0]).state, ops[1..]);
    }
  }
}
