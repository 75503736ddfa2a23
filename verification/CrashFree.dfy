/** Runs in which the server never crashes: one total order, each request processed
    exactly once and in order, no recovery. */
module CrashFree {
  import opened Messages
  import opened History
  import opened Canon
  import opened Client
  import opened Server
  import opened Protocol
  import opened Safety
  import opened Runs

  /** The application ran for 1, 2, ..., c in order; for n it saw the history cut after `R<n>`;
      what is buffered for n is what it returned then. */
  ghost predicate CallsOk(hf: HashFn, s: ServerState, frozen: seq<Request>) {
    && |s.calls| == s.committedUpto <= |frozen|
    && s.awaiting == {} && s.history.baseCount == 0
    && (forall k :: 0 <= k < |s.calls| ==>
          && s.calls[k].id == k + 1 && s.calls[k].payload == frozen[k].payload
          && s.calls[k].seen.baseCount == 0
          && Represents(hf, s.calls[k].seen, Cut(frozen, k + 1)))
    && (forall i :: i in s.appCalls <==> 1 <= i <= s.committedUpto)
    && (forall i :: i in s.respBuffer ==> 1 <= i <= s.committedUpto && s.respBuffer[i] == s.calls[i - 1].output)
  }

  ghost predicate Applied(buffer: map<SeqNum, string>, acks: seq<SeqNum>) {
    forall i :: i in acks ==> i !in buffer
  }

  /** What is staged or committed has had its acknowledgements applied. */
  ghost predicate AcksApplied(s: ServerState, frozen: seq<Request>) {
    && (forall x :: x in s.pendingReqs ==> s.committedUpto < x <= |frozen| && s.pendingReqs[x] == frozen[x - 1])
    && (forall k :: 0 <= k < |frozen| && (k + 1 <= s.committedUpto || k + 1 in s.pendingReqs) ==>
          Applied(s.respBuffer, frozen[k].ackNew))
  }

  ghost predicate Settled(s: ServerState) {
    s.committedUpto + 1 !in s.pendingReqs
  }

  ghost predicate AnswerIs(s: ServerState, id: SeqNum, payload: string) {
    1 <= id <= |s.calls| && s.calls[id - 1].output == payload
  }

  ghost predicate OutsOk(s: ServerState, out: seq<Response>) {
    forall r :: r in out ==>
      !r.recover && 1 <= r.id <= |s.calls| && (!r.noOp ==> AnswerIs(s, r.id, r.payload))
  }

  ghost predicate SteadyServer(hf: HashFn, s: ServerState, frozen: seq<Request>) {
    CallsOk(hf, s, frozen) && AcksApplied(s, frozen)
  }

  /** Whatever the client received, this server committed and answered. */
  ghost predicate SteadyReceipts(y: System) {
    && (forall i :: i in y.client.received ==> i <= y.server.committedUpto)
    && (forall k :: 0 <= k < |y.client.delivered| ==>
          AnswerIs(y.server, y.client.delivered[k].id, y.client.delivered[k].payload))
    && (forall r :: r in y.responses ==>
          1 <= r.id <= |y.server.calls| && (!r.noOp ==> AnswerIs(y.server, r.id, r.payload)))
    && y.signals == {} && y.replays == {}
  }

  ghost predicate Steady(hf: HashFn, y: System) {
    && SteadyServer(hf, y.server, y.frozen) && Settled(y.server)
    && SteadyReceipts(y)
  }

  // ---- one commit ----

  lemma CommitCalls(hf: HashFn, s: ServerState, frozen: seq<Request>, app: AppFn)
    requires HistoryOk(hf, s, frozen) && CallsOk(hf, s, frozen)
    requires s.committedUpto < |frozen| && frozen[s.committedUpto].id == s.committedUpto + 1
    requires s.committedUpto + 1 in s.pendingReqs && s.pendingReqs[s.committedUpto + 1] == frozen[s.committedUpto]
    ensures CallsOk(hf, CommitNext(hf, s, app), frozen)
    ensures s.calls <= CommitNext(hf, s, app).calls
  {
    hide Cut, AppendAll;
    RecordOk(hf, s, frozen);
    AppendAllBase(hf, s.history, Block(frozen[s.committedUpto]));
  }

  lemma CommitAcks(hf: HashFn, s: ServerState, frozen: seq<Request>, received: set<SeqNum>, app: AppFn)
    requires FrozenOk(hf, frozen, received) && AcksApplied(s, frozen)
    requires (forall i :: i in received ==> i <= s.committedUpto) && s.committedUpto + 1 in s.pendingReqs
    ensures AcksApplied(CommitNext(hf, s, app), frozen)
  {
    hide AppendAll;
    var s' := CommitNext(hf, s, app);
    assert RequestOk(hf, frozen, s.committedUpto, received);
    assert s'.committedUpto == s.committedUpto + 1 && s'.pendingReqs == s.pendingReqs - {s.committedUpto + 1};
    forall k | 0 <= k < |frozen| && (k + 1 <= s'.committedUpto || k + 1 in s'.pendingReqs)
      ensures Applied(s'.respBuffer, frozen[k].ackNew)
    {
      assert Applied(s.respBuffer, frozen[k].ackNew);
      assert RequestOk(hf, frozen, k, received);
    }
  }

  lemma OutsGrow(s: ServerState, s': ServerState, out: seq<Response>)
    requires s.calls <= s'.calls && OutsOk(s, out)
    ensures OutsOk(s', out)
  {
    forall r | r in out && !r.noOp ensures AnswerIs(s', r.id, r.payload) {
      assert s'.calls[r.id - 1] == s.calls[r.id - 1];
    }
  }

  lemma CommitSteady(hf: HashFn, s: ServerState, frozen: seq<Request>, received: set<SeqNum>, app: AppFn)
    requires FrozenOk(hf, frozen, received) && ServerOk(hf, s, frozen) && SteadyServer(hf, s, frozen)
    requires (forall i :: i in received ==> i <= s.committedUpto) && s.committedUpto + 1 in s.pendingReqs
    ensures
      var s' := CommitNext(hf, s, app);
      var id := s.pendingReqs[s.committedUpto + 1].id;
      && ServerOk(hf, s', frozen) && SteadyServer(hf, s', frozen) && s.calls <= s'.calls
      && s'.committedUpto == s.committedUpto + 1 && id in s'.respBuffer
      && OutsOk(s', [MakeResponse(s', id, s'.respBuffer[id], false)])
  {
    hide CommitNext, Represents, Cut, HashAt, Applied, OnceOk, CallsOk, AcksApplied, AnswerIs;
    assert RequestOk(hf, frozen, s.committedUpto, received);
    CallsCount(hf, s, frozen);
    CommitNextOk(hf, s, frozen, received, app);
    CommitCalls(hf, s, frozen, app);
    CommitAcks(hf, s, frozen, received, app);
    var s' := CommitNext(hf, s, app);
    CallsCount(hf, s', frozen);
    BufferedAnswer(hf, s', frozen, s'.committedUpto);
  }

  lemma CallsCount(hf: HashFn, s: ServerState, frozen: seq<Request>)
    requires CallsOk(hf, s, frozen)
    ensures |s.calls| == s.committedUpto <= |frozen|
  {
  }

  lemma BufferedAnswer(hf: HashFn, s: ServerState, frozen: seq<Request>, id: SeqNum)
    requires CallsOk(hf, s, frozen) && id in s.respBuffer
    ensures AnswerIs(s, id, s.respBuffer[id])
  {
    hide Represents, Cut;
  }

  lemma {:induction false} CommitLoopSteady(
      hf: HashFn, s: ServerState, frozen: seq<Request>, received: set<SeqNum>, app: AppFn)
    requires FrozenOk(hf, frozen, received) && ServerOk(hf, s, frozen) && SteadyServer(hf, s, frozen)
    requires forall i :: i in received ==> i <= s.committedUpto
    ensures
      var res := CommitLoop(hf, s, app);
      && SteadyServer(hf, res.state, frozen) && Settled(res.state)
      && s.calls <= res.state.calls && res.state.committedUpto >= s.committedUpto
      && OutsOk(res.state, res.out)
    decreases |s.pendingReqs|
  {
    hide CommitNext, FrozenOk, ServerOk, SteadyServer, MakeResponse, OutsOk;
    if s.committedUpto + 1 in s.pendingReqs {
      CommitSteady(hf, s, frozen, received, app);
      CommitLoopTurn(hf, s, app, []);
      var s' := CommitNext(hf, s, app);
      var id := s.pendingReqs[s.committedUpto + 1].id;
      var rest := CommitLoop(hf, s', app);
      CommitLoopSteady(hf, s', frozen, received, app);
      var first := [MakeResponse(s', id, s'.respBuffer[id], false)];
      OutsGrow(s', rest.state, first);
      OutsConcat(rest.state, first, rest.out);
      assert CommitLoop(hf, s, app).out == first + rest.out;
    } else {
      NoOuts(s);
    }
  }

  lemma NoOuts(s: ServerState)
    ensures OutsOk(s, [])
  {
  }

  lemma OutsConcat(s: ServerState, a: seq<Response>, b: seq<Response>)
    requires OutsOk(s, a) && OutsOk(s, b)
    ensures OutsOk(s, a + b)
  {
  }

  // ---- one delivery ----

  /** Every acknowledgement names only what this server has committed. */
  lemma NoRecoveryNeeded(hf: HashFn, s: ServerState, frozen: seq<Request>, received: set<SeqNum>, k: nat)
    requires k < |frozen| && RequestOk(hf, frozen, k, received)
    requires forall i :: i in received ==> i <= s.committedUpto
    ensures !NeedsRecover(s, frozen[k])
  {
    if frozen[k].ackBase > 1 {
      assert frozen[k].ackBase - 1 in received;
    }
    forall j | 0 <= j < |frozen[k].ackNew| ensures frozen[k].ackNew[j] <= s.committedUpto {
      assert frozen[k].ackNew[j] in frozen[k].ackNew;
    }
  }

  lemma ReleaseSteady(hf: HashFn, s: ServerState, frozen: seq<Request>, req: Request)
    requires ServerOk(hf, s, frozen) && SteadyServer(hf, s, frozen)
    ensures ServerOk(hf, Release(s, req), frozen) && SteadyServer(hf, Release(s, req), frozen)
    ensures Applied(Release(s, req).respBuffer, req.ackNew)
  {
    hide ServerOk;
    var s1 := Release(s, req);
    ReleaseOk(hf, s, frozen, req);
    forall k | 0 <= k < |frozen| && (k + 1 <= s1.committedUpto || k + 1 in s1.pendingReqs)
      ensures Applied(s1.respBuffer, frozen[k].ackNew)
    {
      assert Applied(s.respBuffer, frozen[k].ackNew);
    }
  }

  lemma StageSteady(hf: HashFn, s: ServerState, frozen: seq<Request>, k: nat)
    requires k < |frozen| && frozen[k].id == k + 1 > s.committedUpto && Applied(s.respBuffer, frozen[k].ackNew)
    requires ServerOk(hf, s, frozen) && SteadyServer(hf, s, frozen)
    ensures ServerOk(hf, Stage(s, frozen[k]), frozen) && SteadyServer(hf, Stage(s, frozen[k]), frozen)
  {
    hide Represents, Cut, HashAt, Applied, OnceOk, CallsOk;
    StageCalls(hf, s, frozen, frozen[k]);
  }

  lemma StageCalls(hf: HashFn, s: ServerState, frozen: seq<Request>, req: Request)
    requires CallsOk(hf, s, frozen) && OnceOk(s)
    ensures CallsOk(hf, Stage(s, req), frozen) && OnceOk(Stage(s, req))
  {
    hide Represents, Cut;
  }

  lemma AnswerSteady(hf: HashFn, s: ServerState, frozen: seq<Request>, req: Request, app: AppFn)
    requires SteadyServer(hf, s, frozen) && 1 <= req.id <= s.committedUpto
    ensures
      var res := AnswerCommitted(s, req, app);
      res.state == s && OutsOk(s, res.out)
  {
    hide Represents, Cut;
  }

  lemma TrackSteady(hf: HashFn, s: ServerState, frozen: seq<Request>, out: seq<Response>)
    requires SteadyServer(hf, s, frozen) && OutsOk(s, out)
    ensures SteadyServer(hf, TrackBounds(s), frozen) && OutsOk(TrackBounds(s), out)
  {
    hide Represents, Cut;
  }

  lemma OnRequestSteady(hf: HashFn, s: ServerState, frozen: seq<Request>, received: set<SeqNum>, id: SeqNum, app: AppFn)
    requires FrozenOk(hf, frozen, received) && ServerOk(hf, s, frozen) && SteadyServer(hf, s, frozen) && Settled(s)
    requires (forall i :: i in received ==> i <= s.committedUpto) && 1 <= id <= |frozen|
    ensures
      var res := OnRequest(hf, s, frozen[id - 1], app);
      && SteadyServer(hf, res.state, frozen) && Settled(res.state)
      && s.calls <= res.state.calls && res.state.committedUpto >= s.committedUpto
      && OutsOk(res.state, res.out)
  {
    hide ServerOk, SteadyServer, NeedsRecover, CommitLoop, AnswerCommitted, OutsOk;
    var req := frozen[id - 1];
    assert RequestOk(hf, frozen, id - 1, received);
    NoRecoveryNeeded(hf, s, frozen, received, id - 1);
    var s1 := Release(s, req);
    ReleaseSteady(hf, s, frozen, req);
    if req.id <= s1.committedUpto {
      AnswerSteady(hf, s1, frozen, req, app);
      TrackSteady(hf, s1, frozen, AnswerCommitted(s1, req, app).out);
    } else {
      StageSteady(hf, s1, frozen, id - 1);
      CommitLoopSteady(hf, Stage(s1, req), frozen, received, app);
      var res := CommitLoop(hf, Stage(s1, req), app);
      TrackSteady(hf, res.state, frozen, res.out);
    }
  }

  // ---- every step ----

  lemma AnswersKept(s: ServerState, s': ServerState)
    requires s.calls <= s'.calls
    ensures forall id, payload :: AnswerIs(s, id, payload) ==> AnswerIs(s', id, payload)
  {
    forall id, payload | AnswerIs(s, id, payload) ensures AnswerIs(s', id, payload) {
      assert s'.calls[id - 1] == s.calls[id - 1];
    }
  }

  lemma HandledSteady(hf: HashFn, y: System, res: Result)
    requires Steady(hf, y) && SteadyServer(hf, res.state, y.frozen) && Settled(res.state)
    requires y.server.calls <= res.state.calls && res.state.committedUpto >= y.server.committedUpto
    requires OutsOk(res.state, res.out)
    ensures Steady(hf, Handled(y, res))
  {
    hide SteadyServer, AnswerIs;
    AnswersKept(y.server, res.state);
  }

  lemma DeliverSteady(hf: HashFn, y: System, id: SeqNum, app: AppFn)
    requires Agreement(hf, y) && Steady(hf, y) && 1 <= id <= |y.frozen|
    ensures Steady(hf, Apply(hf, y, DeliverRequest(id, app)))
  {
    hide OnRequest, ServerOk, ClientOk, FrozenOk, MessagesOk, SteadyServer, Settled, OutsOk, Handled;
    OnRequestSteady(hf, y.server, y.frozen, y.client.received, id, app);
    HandledSteady(hf, y, OnRequest(hf, y.server, y.frozen[id - 1], app));
  }

  lemma SteadyExtend(hf: HashFn, s: ServerState, a: seq<Request>, b: seq<Request>)
    requires a <= b && SteadyServer(hf, s, a)
    ensures SteadyServer(hf, s, b)
  {
    hide Represents, Applied;
    Stable(hf, a, b);
    assert forall k :: 0 <= k < |a| ==> a[k] == b[k];
    forall k | 0 <= k < |s.calls| ensures Represents(hf, s.calls[k].seen, Cut(b, k + 1)) {
      assert Cut(a, k + 1) == Cut(b, k + 1);
    }
  }

  lemma GenerateSteady(hf: HashFn, y: System, payload: string)
    requires Steady(hf, y)
    ensures Steady(hf, Apply(hf, y, Generate(payload)))
  {
    hide SteadyServer, AnswerIs, AppendAll;
    SteadyExtend(hf, y.server, y.frozen, Apply(hf, y, Generate(payload)).frozen);
  }

  lemma ReceiveSteady(hf: HashFn, y: System, r: Response)
    requires Steady(hf, y) && r in y.responses
    ensures Steady(hf, y.(client := OnResponse(y.client, r)))
  {
    hide SteadyServer, AnswerIs, AdvanceBase;
    SteadyCount(hf, y.server, y.frozen);
  }

  lemma SteadyCount(hf: HashFn, s: ServerState, frozen: seq<Request>)
    requires SteadyServer(hf, s, frozen)
    ensures |s.calls| == s.committedUpto <= |frozen|
  {
    CallsCount(hf, s, frozen);
  }

  lemma StepSteady(hf: HashFn, p: Policy, y: System, st: Step)
    requires p.crashFree && Agreement(hf, y) && Steady(hf, y) && Enabled(p, y, st)
    ensures Steady(hf, Apply(hf, y, st))
  {
    hide Agreement, OnRequest, Ingest, Restore, OnResponse, GenerateRequest, SteadyServer;
    match st
    case Generate(payload) => GenerateSteady(hf, y, payload);
    case DeliverRequest(id, app) => DeliverSteady(hf, y, id, app);
    case DeliverResponse(r) => ReceiveSteady(hf, y, r);
    case _ =>
  }

  lemma InitSteady(hf: HashFn, p: Policy, ys: seq<System>, sts: seq<Step>)
    requires Run(hf, p, ys, sts)
    ensures Steady(hf, ys[0])
  {
  }

  lemma {:induction false} RunSteady(hf: HashFn, p: Policy, ys: seq<System>, sts: seq<Step>, k: nat)
    requires p.crashFree && Run(hf, p, ys, sts) && k <= |sts|
    ensures Steady(hf, ys[k])
  {
    hide Agreement, Steady, Apply, Enabled, Init;
    if k == 0 {
      InitSteady(hf, p, ys, sts);
    } else {
      RunSteady(hf, p, ys, sts, k - 1);
      RunAgrees(hf, p, ys, sts, k - 1);
      assert Enabled(p, ys[k - 1], sts[k - 1]);
      StepSteady(hf, p, ys[k - 1], sts[k - 1]);
    }
  }

  // ---- what it means ----

  /** Recovery is never signalled: no request the client can send names anything uncommitted,
      whatever the network did. */
  lemma NeverSignalsRecovery(hf: HashFn, p: Policy, ys: seq<System>, sts: seq<Step>, k: nat)
    requires p.crashFree && Run(hf, p, ys, sts) && k <= |sts|
    ensures ys[k].signals == {} && ys[k].replays == {}
    ensures forall x :: 0 <= x < |ys[k].frozen| ==> !NeedsRecover(ys[k].server, ys[k].frozen[x])
  {
    hide ServerOk, ClientOk, MessagesOk, SteadyServer, NeedsRecover;
    RunAgrees(hf, p, ys, sts, k);
    RunSteady(hf, p, ys, sts, k);
    var y := ys[k];
    forall x | 0 <= x < |y.frozen| ensures !NeedsRecover(y.server, y.frozen[x]) {
      assert RequestOk(hf, y.frozen, x, y.client.received);
      NoRecoveryNeeded(hf, y.server, y.frozen, y.client.received, x);
    }
  }

  /** One total order: the server's history is a prefix of the client's, and the application
      has run for 1, 2, 3, ... in order. */
  lemma TotalOrder(hf: HashFn, p: Policy, ys: seq<System>, sts: seq<Step>, k: nat)
    requires p.crashFree && Run(hf, p, ys, sts) && k <= |sts|
    ensures
      var y := ys[k];
      && y.server.history.events <= y.client.history.events
      && |y.server.calls| == y.server.committedUpto
      && forall n :: 0 <= n < |y.server.calls| ==> y.server.calls[n].id == n + 1
  {
    RunSteady(hf, p, ys, sts, k);
    FailoverSafety(hf, p, ys, sts, k);
  }

  /** The causal view: the history the application saw for request n is the client's history
      right after generating n. */
  lemma CausalView(hf: HashFn, p: Policy, ys: seq<System>, sts: seq<Step>, k: nat, later: nat)
    requires p.crashFree && Run(hf, p, ys, sts) && k < later <= |sts| && sts[k].Generate?
    ensures
      var n := ys[k].client.nextSeq;
      var calls := ys[later].server.calls;
      1 <= n <= |calls| ==>
        && calls[n - 1].seen.events == ys[k + 1].client.history.events
        && calls[n - 1].payload == sts[k].payload
  {
    hide Agreement, Steady, OnRequest, Ingest, Restore, OnResponse, GenerateRequest, AppendAll;
    RunAgrees(hf, p, ys, sts, k);
    RunAgrees(hf, p, ys, sts, k + 1);
    RunSteady(hf, p, ys, sts, later);
    assert Enabled(p, ys[k], sts[k]) && ys[k + 1] == Apply(hf, ys[k], sts[k]);
    FrozenGrows(hf, p, ys, sts, k + 1, later);
    var n := ys[k].client.nextSeq;
    HoldsWholeCut(hf, ys[k]);
    HoldsWholeCut(hf, ys[k + 1]);
    CutExtend(ys[k + 1].frozen, ys[later].frozen, n);
    if 1 <= n <= |ys[later].server.calls| {
      SawCut(hf, ys[later], n);
    }
  }

  lemma HoldsWholeCut(hf: HashFn, y: System)
    requires Agreement(hf, y)
    ensures y.client.nextSeq == |y.frozen| + 1 && y.client.history.events == Cut(y.frozen, |y.frozen|)
  {
    hide ReceiptsOk, ServerOk, MessagesOk, FrozenOk;
  }

  lemma SawCut(hf: HashFn, y: System, n: SeqNum)
    requires Steady(hf, y) && 1 <= n <= |y.server.calls|
    ensures n <= |y.frozen| && y.server.calls[n - 1].seen.events == Cut(y.frozen, n)
    ensures y.server.calls[n - 1].payload == y.frozen[n - 1].payload
  {
    hide AcksApplied, SteadyReceipts;
  }

  /** Exactly once: the application ran once for each committed id and for no other, and
      every payload the client was handed is what that one call returned. */
  lemma ExactlyOnce(hf: HashFn, p: Policy, ys: seq<System>, sts: seq<Step>, k: nat)
    requires p.crashFree && Run(hf, p, ys, sts) && k <= |sts|
    ensures
      var s := ys[k].server;
      && (forall i :: i in s.appCalls <==> 1 <= i <= s.committedUpto)
      && (forall i :: i in s.appCalls ==> s.appCalls[i] == 1)
      && |s.calls| == s.committedUpto
      && (forall j :: 0 <= j < |ys[k].client.delivered| ==>
            var d := ys[k].client.delivered[j];
            1 <= d.id <= |s.calls| && s.calls[d.id - 1].id == d.id && s.calls[d.id - 1].output == d.payload)
  {
    hide Represents, Cut, FrozenOk, ClientOk, MessagesOk, TablesOk, HistoryOk;
    RunAgrees(hf, p, ys, sts, k);
    RunSteady(hf, p, ys, sts, k);
    var y := ys[k];
    forall j | 0 <= j < |y.client.delivered|
      ensures
        var d := y.client.delivered[j];
        && 1 <= d.id <= |y.server.calls| && y.server.calls[d.id - 1].id == d.id
        && y.server.calls[d.id - 1].output == d.payload
    {
      assert AnswerIs(y.server, y.client.delivered[j].id, y.client.delivered[j].payload);
    }
  }
}
