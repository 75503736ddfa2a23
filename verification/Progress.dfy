/** Progress: while something is outstanding, some outstanding request, when delivered,
    is answered or triggers recovery; so a conversation can always be drained. */
module Progress {
  import opened Messages
  import opened History
  import opened Canon
  import opened Client
  import opened Server
  import opened Commits
  import opened Protocol
  import opened Safety
  import opened Runs
  import opened Recovery
  import opened Answers
  import opened Acknowledgements
  import opened CrashFree

  /** Everything proved of reachable states under a disciplined policy. */
  ghost predicate Good(hf: HashFn, p: Policy, y: System) {
    && (p.quiescent || p.crashFree)
    && Agreement(hf, y) && NothingLost(p, y) && AcksOk(y)
  }

  lemma GoodParts(hf: HashFn, p: Policy, y: System)
    requires Good(hf, p, y)
    ensures Agreement(hf, y) && AcksOk(y)
  {
    hide Agreement, AcksOk;
  }

  lemma StepGood(hf: HashFn, p: Policy, y: System, st: Step)
    requires Good(hf, p, y) && Enabled(p, y, st)
    ensures Good(hf, p, Apply(hf, y, st))
  {
    hide Agreement, NothingLost, AcksOk, Enabled, Apply;
    StepAgrees(hf, p, y, st);
    StepLosesNothing(hf, p, y, st);
    StepAcks(hf, p, y, st);
  }

  lemma RunGood(hf: HashFn, p: Policy, ys: seq<System>, sts: seq<Step>, k: nat)
    requires p.quiescent || p.crashFree
    requires Run(hf, p, ys, sts) && k <= |sts|
    ensures Good(hf, p, ys[k])
  {
    hide Agreement, NothingLost, AcksOk;
    RunAgrees(hf, p, ys, sts, k);
    RunLosesNothing(hf, p, ys, sts, k);
    RunAcks(hf, p, ys, sts, k);
  }

  /** Receipts not yet acknowledged are of requests this server has committed. In particular
      when there are none, as after generating a request. */
  ghost predicate Caught(y: System) {
    forall i :: i in y.client.pendingNew ==> i <= y.server.committedUpto
  }

  // ---- an outstanding request at the frontier is answered ----

  ghost predicate IsAnswer(r: Response, id: SeqNum) {
    r.id == id && !r.noOp && !r.recover
  }

  ghost predicate AnswersFor(out: seq<Response>, id: SeqNum) {
    exists k :: 0 <= k < |out| && IsAnswer(out[k], id)
  }

  lemma CommitAnswers(hf: HashFn, s: ServerState, app: AppFn)
    requires Keyed(s) && s.committedUpto + 1 in s.pendingReqs
    ensures
      var res := CommitLoop(hf, s, app);
      AnswersFor(res.out, s.committedUpto + 1) && res.state.committedUpto > s.committedUpto
  {
    hide CommitLoop;
    CommitLoopAnswers(hf, s, app);
    var res := CommitLoop(hf, s, app);
    assert res.state.committedUpto + 1 !in res.state.pendingReqs;
    assert IsAnswer(res.out[0], s.committedUpto + 1);
  }

  lemma KeptAnswers(hf: HashFn, s: ServerState, req: Request, app: AppFn)
    requires req.id <= s.committedUpto && (req.id in s.respBuffer || req.id in s.awaiting)
    ensures
      var res := AnswerCommitted(s, req, app);
      AnswersFor(res.out, req.id) && res.state.committedUpto == s.committedUpto
  {
    var res := AnswerCommitted(s, req, app);
    assert IsAnswer(res.out[0], req.id);
  }

  /** A waiting id at or below the frontier gets a real answer when its request is delivered. */
  lemma FrontierAnswers(hf: HashFn, y: System, id: SeqNum, app: AppFn)
    requires Agreement(hf, y) && Covered(y.server, y.client.received)
    requires id in y.client.inflight && id <= y.server.committedUpto + 1
    requires !NeedsRecover(y.server, y.frozen[id - 1])
    ensures
      var res := OnRequest(hf, y.server, y.frozen[id - 1], app);
      && AnswersFor(res.out, id)
      && res.state.committedUpto >= y.server.committedUpto && res.state.committedUpto >= id
  {
    hide HistoryOk, ClientHistoryOk, HashAt, CommitLoop, AnswerCommitted, MessagesOk, OnceOk;
    var s, req := y.server, y.frozen[id - 1];
    assert RequestOk(hf, y.frozen, id - 1, y.client.received);
    var s1 := Release(s, req);
    if id <= s.committedUpto {
      KeptAnswers(hf, s1, req, app);
    } else {
      OkKeyed(hf, s, y.frozen, y.client.received);
      CommitAnswers(hf, Stage(s1, req), app);
    }
  }

  // ---- following the acknowledgements ----

  /** A receipt ahead of the server was acknowledged by a later request; that one is outstanding
      or was itself received, ahead of the server again. The chain ends at an outstanding one. */
  lemma {:induction false} AcknowledgerOutstanding(hf: HashFn, y: System, i: SeqNum) returns (id: SeqNum)
    requires FrozenOk(hf, y.frozen, y.client.received) && ReceiptsOk(y.client, y.frozen) && AcksOk(y) && Caught(y)
    requires i in y.client.received && i > y.server.committedUpto
    ensures id in y.client.inflight && NeedsRecover(y.server, y.frozen[id - 1])
    decreases |y.frozen| - i
  {
    assert i in Receipts(y);
    AckLogMember(y.frozen, |y.frozen|, i);
    var x :| 0 <= x < |y.frozen| && i in y.frozen[x].ackNew;
    assert RequestOk(hf, y.frozen, x, y.client.received);
    if x + 1 in y.client.received {
      id := AcknowledgerOutstanding(hf, y, x + 1);
    } else {
      id := x + 1;
    }
  }

  lemma Least(s: set<SeqNum>) returns (m: SeqNum)
    requires s != {}
    ensures m in s && forall i :: i in s ==> m <= i
    decreases s
  {
    var x :| x in s;
    m := x;
    if s != {x} {
      m := Least(s - {x});
      if x < m {
        m := x;
      }
    }
    assert forall i :: i in s ==> i == x || i in s - {x};
  }

  /** Some outstanding request is at the frontier or makes the server ask for a replay. */
  lemma ProgressStep(hf: HashFn, p: Policy, y: System) returns (id: SeqNum)
    requires Good(hf, p, y) && Caught(y) && y.client.inflight != map[]
    ensures id in y.client.inflight && 1 <= id <= |y.frozen|
    ensures NeedsRecover(y.server, y.frozen[id - 1]) || id <= y.server.committedUpto + 1
  {
    hide ClientHistoryOk, ServerOk, MessagesOk, NothingLost, FrozenOk, NeedsRecover;
    assert y.client.inflight.Keys != {};
    var m := Least(y.client.inflight.Keys);
    var next := y.server.committedUpto + 1;
    if m <= next {
      id := m;
    } else {
      assert next in y.client.received;
      id := AcknowledgerOutstanding(hf, y, next);
    }
  }

  /** Failover progress, in every reachable state. */
  lemma FailoverProgress(hf: HashFn, p: Policy, ys: seq<System>, sts: seq<Step>, k: nat, app: AppFn)
    returns (id: SeqNum)
    requires p.quiescent || p.crashFree
    requires Run(hf, p, ys, sts) && k <= |sts|
    requires ys[k].client.inflight != map[]
    requires forall i :: i in ys[k].client.pendingNew ==> i <= ys[k].server.committedUpto
    ensures id in ys[k].client.inflight && 1 <= id <= |ys[k].frozen|
    ensures
      var req := ys[k].frozen[id - 1];
      && ys[k].client.inflight[id] == req
      && (NeedsRecover(ys[k].server, req) || AnswersFor(OnRequest(hf, ys[k].server, req, app).out, id))
  {
    hide ClientHistoryOk, ServerOk, MessagesOk, FrozenOk, NeedsRecover, OnRequest;
    RunGood(hf, p, ys, sts, k);
    id := ProgressStep(hf, p, ys[k]);
    if !NeedsRecover(ys[k].server, ys[k].frozen[id - 1]) {
      FrontierAnswers(hf, ys[k], id, app);
    }
  }

  // ---- the exact condition ----

  /** Everything between the frontier and this id is staged. */
  predicate Contiguous(s: ServerState, id: SeqNum) {
    forall k | s.committedUpto < k < id :: k in s.pendingReqs
  }

  /** A staged request is answered by its own delivery exactly when nothing below it is missing. */
  lemma StagedAnswersExactly(hf: HashFn, s: ServerState, req: Request, app: AppFn)
    requires Keyed(s) && req.id > s.committedUpto && !NeedsRecover(s, req)
    ensures AnswersFor(OnRequest(hf, s, req, app).out, req.id) <==> Contiguous(s, req.id)
  {
    hide CommitLoop, NeedsRecover;
    var s1 := Stage(Release(s, req), req);
    CommitLoopAnswers(hf, s1, app);
    var res := CommitLoop(hf, s1, app);
    assert res.state.committedUpto + 1 !in res.state.pendingReqs;
    if Contiguous(s, req.id) {
      assert IsAnswer(res.out[req.id - s.committedUpto - 1], req.id);
    }
    if j :| 0 <= j < |res.out| && IsAnswer(res.out[j], req.id) {
      assert req.id <= res.state.committedUpto;
      forall k | s.committedUpto < k < req.id ensures k in s.pendingReqs {
        assert k in s1.pendingReqs;
      }
    }
  }

  /** A committed request that is neither buffered nor awaited gets a no-op. */
  lemma AnswersNothing(hf: HashFn, s: ServerState, req: Request, app: AppFn)
    requires req.id <= s.committedUpto && req.id !in s.respBuffer && req.id !in s.awaiting && !NeedsRecover(s, req)
    ensures
      var out := OnRequest(hf, s, req, app).out;
      |out| == 1 && out[0].id == req.id && out[0].noOp && !out[0].recover
  {
  }

  /** An answer is at hand: kept or owed if the request is committed, and otherwise due because
      nothing below it is missing. */
  predicate AtHand(s: ServerState, id: SeqNum) {
    if id <= s.committedUpto then id in s.respBuffer || id in s.awaiting else Contiguous(s, id)
  }

  lemma PlacedAnswersExactly(hf: HashFn, s: ServerState, req: Request, app: AppFn)
    requires Keyed(s) && !NeedsRecover(s, req) && req.id >= req.ackBase && req.id !in req.ackNew
    ensures AnswersFor(OnRequest(hf, s, req, app).out, req.id) <==> AtHand(s, req.id)
  {
    hide NeedsRecover, CommitLoop, Contiguous;
    if req.id > s.committedUpto {
      StagedAnswersExactly(hf, s, req, app);
    } else if req.id in s.respBuffer || req.id in s.awaiting {
      KeptAnswers(hf, Release(s, req), req, app);
    } else {
      AnswersNothing(hf, s, req, app);
    }
  }

  /** In every run, a request of the client's that the server can place is answered by its own
      delivery exactly when an answer is at hand. */
  lemma DeliveryAnswersExactly(hf: HashFn, p: Policy, ys: seq<System>, sts: seq<Step>, k: nat, id: SeqNum, app: AppFn)
    requires Run(hf, p, ys, sts) && k <= |sts| && 1 <= id <= |ys[k].frozen|
    ensures
      var s, req := ys[k].server, ys[k].frozen[id - 1];
      !NeedsRecover(s, req) ==> (AnswersFor(OnRequest(hf, s, req, app).out, id) <==> AtHand(s, id))
  {
    hide NeedsRecover, OnRequest, ClientOk, MessagesOk, HistoryOk, OnceOk, AtHand, Apply, Enabled, Init;
    RunAgrees(hf, p, ys, sts, k);
    var y := ys[k];
    assert RequestOk(hf, y.frozen, id - 1, y.client.received);
    OkKeyed(hf, y.server, y.frozen, y.client.received);
    if !NeedsRecover(y.server, y.frozen[id - 1]) {
      PlacedAnswersExactly(hf, y.server, y.frozen[id - 1], app);
    }
  }

  /** Where no answer is lost, an outstanding one is at hand exactly when nothing below is missing. */
  lemma OutstandingAtHand(hf: HashFn, p: Policy, ys: seq<System>, sts: seq<Step>, k: nat, id: SeqNum)
    requires p.quiescent || p.crashFree
    requires Run(hf, p, ys, sts) && k <= |sts| && id in ys[k].client.inflight
    ensures AtHand(ys[k].server, id) <==> Contiguous(ys[k].server, id)
  {
    hide ClientHistoryOk, ServerOk, MessagesOk, FrozenOk, AcksOk, Apply, Enabled, Init;
    RunGood(hf, p, ys, sts, k);
  }

  // ---- draining ----

  lemma PathConcat(hf: HashFn, p: Policy, a: seq<System>, sa: seq<Step>, b: seq<System>, sb: seq<Step>)
    requires Path(hf, p, a, sa) && Path(hf, p, b, sb) && a[|sa|] == b[0]
    ensures Path(hf, p, a + b[1..], sa + sb)
    ensures (a + b[1..])[|sa| + |sb|] == b[|sb|] && (a + b[1..])[0] == a[0]
  {
    hide Apply;
    var ys, sts := a + b[1..], sa + sb;
    forall k | 0 <= k < |sts| ensures Enabled(p, ys[k], sts[k]) && ys[k + 1] == Apply(hf, ys[k], sts[k]) {
      if k < |sa| {
        assert sts[k] == sa[k];
      } else {
        assert sts[k] == sb[k - |sa|];
        assert ys[k] == b[k - |sa|] && ys[k + 1] == b[k - |sa| + 1];
      }
    }
  }

  lemma OneStep(hf: HashFn, p: Policy, y: System, st: Step)
    requires Enabled(p, y, st)
    ensures Path(hf, p, [y, Apply(hf, y, st)], [st])
  {
    hide Apply;
  }

  /** What a drain round leaves: the same invariants, one request fewer outstanding. */
  ghost predicate Drained(hf: HashFn, p: Policy, y: System, z: System, id: SeqNum) {
    && Good(hf, p, z) && Caught(z) && z.frozen == y.frozen
    && id in y.client.inflight && z.client.inflight == y.client.inflight - {id}
  }

  /** Delivering an outstanding request at the frontier sends its answer. */
  lemma AnswerSent(hf: HashFn, p: Policy, y: System, id: SeqNum, app: AppFn) returns (r: Response)
    requires Good(hf, p, y) && Caught(y) && id in y.client.inflight
    requires id <= y.server.committedUpto + 1 && !NeedsRecover(y.server, y.frozen[id - 1])
    ensures 1 <= id <= |y.frozen|
    ensures
      var y1 := Apply(hf, y, DeliverRequest(id, app));
      && Good(hf, p, y1) && Caught(y1) && y1.client == y.client && y1.frozen == y.frozen
      && r in y1.responses && IsAnswer(r, id) && id <= y1.server.committedUpto
  {
    hide OnRequest, NeedsRecover, ClientHistoryOk, ServerOk, MessagesOk, FrozenOk, AcksOk;
    var res := OnRequest(hf, y.server, y.frozen[id - 1], app);
    FrontierAnswers(hf, y, id, app);
    var k :| 0 <= k < |res.out| && IsAnswer(res.out[k], id);
    r := res.out[k];
    StepGood(hf, p, y, DeliverRequest(id, app));
  }

  /** Receiving it takes the request off. */
  lemma AnswerTaken(hf: HashFn, p: Policy, y: System, id: SeqNum, r: Response)
    requires Good(hf, p, y) && Caught(y) && id in y.client.inflight && id <= y.server.committedUpto
    requires r in y.responses && IsAnswer(r, id)
    ensures Drained(hf, p, y, Apply(hf, y, DeliverResponse(r)), id)
  {
    hide ClientHistoryOk, ServerOk, MessagesOk, FrozenOk, AcksOk, AdvanceBase;
    StepGood(hf, p, y, DeliverResponse(r));
  }

  /** Deliver the request, then its answer. */
  lemma AnswerRound(hf: HashFn, p: Policy, y: System, id: SeqNum, app: AppFn)
    returns (ys: seq<System>, sts: seq<Step>)
    requires Good(hf, p, y) && Caught(y) && id in y.client.inflight
    requires id <= y.server.committedUpto + 1 && !NeedsRecover(y.server, y.frozen[id - 1])
    ensures Path(hf, p, ys, sts) && |sts| == 2 && ys[0] == y && Drained(hf, p, y, ys[2], id)
    ensures sts[0] == DeliverRequest(id, app) && sts[1].DeliverResponse? && IsAnswer(sts[1].resp, id)
  {
    hide Good, Caught, Apply, IsAnswer, NeedsRecover;
    var r := AnswerSent(hf, p, y, id, app);
    var deliver, receive := DeliverRequest(id, app), DeliverResponse(r);
    var y1 := Apply(hf, y, deliver);
    var z := Apply(hf, y1, receive);
    AnswerTaken(hf, p, y1, id, r);
    OneStep(hf, p, y, deliver);
    OneStep(hf, p, y1, receive);
    ys, sts := [y, y1] + [y1, z][1..], [deliver] + [receive];
    PathConcat(hf, p, [y, y1], [deliver], [y1, z], [receive]);
  }

  lemma SignalStep(hf: HashFn, y: System, id: SeqNum, app: AppFn)
    requires 1 <= id <= |y.frozen| && NeedsRecover(y.server, y.frozen[id - 1])
    ensures
      var y1 := Apply(hf, y, DeliverRequest(id, app));
      y1 == y.(signals := y.signals + {y.server.history.EventCount()})
  {
    assert Signals([RecoverSignal(y.server, y.frozen[id - 1])]) == {y.server.history.EventCount()};
    assert Ordinary([RecoverSignal(y.server, y.frozen[id - 1])]) == {};
  }

  /** Deliver a request the server cannot place, post the replay it asks for, and ingest it. */
  lemma RecoverPath(hf: HashFn, p: Policy, y: System, id: SeqNum, app: AppFn)
    returns (ys: seq<System>, sts: seq<Step>)
    requires 1 <= id <= |y.frozen| && NeedsRecover(y.server, y.frozen[id - 1])
    ensures Path(hf, p, ys, sts) && |sts| == 3 && ys[0] == y
    ensures
      var signals := y.signals + {y.server.history.EventCount()};
      ys[3] == y.(server := Recovered(hf, y.server, y.client), signals := signals, replays := ys[3].replays)
  {
    hide OnRequest, Ingest, NeedsRecover;
    var from := y.server.history.EventCount();
    var deliver := DeliverRequest(id, app);
    var y1 := Apply(hf, y, deliver);
    SignalStep(hf, y, id, app);
    var post := PostReplay(from);
    var y2 := Apply(hf, y1, post);
    var b := BuiltReplay(BuildReplay(y.client, from), |y.frozen|);
    var ingest := IngestReplay(b);
    assert b in y2.replays;
    var z := Apply(hf, y2, ingest);
    OneStep(hf, p, y, deliver);
    OneStep(hf, p, y1, post);
    OneStep(hf, p, y2, ingest);
    PathConcat(hf, p, [y, y1], [deliver], [y1, y2], [post]);
    PathConcat(hf, p, [y, y1] + [y1, y2][1..], [deliver] + [post], [y2, z], [ingest]);
    ys, sts := [y, y1] + [y1, y2][1..] + [y2, z][1..], [deliver] + [post] + [ingest];
  }

  lemma {:induction false} PathGood(hf: HashFn, p: Policy, ys: seq<System>, sts: seq<Step>, k: nat)
    requires Path(hf, p, ys, sts) && Good(hf, p, ys[0]) && k <= |sts|
    ensures Good(hf, p, ys[k])
  {
    hide Good, Apply, Enabled;
    if k > 0 {
      PathGood(hf, p, ys, sts, k - 1);
      assert Enabled(p, ys[k - 1], sts[k - 1]);
      StepGood(hf, p, ys[k - 1], sts[k - 1]);
    }
  }

  lemma RecoverRound(hf: HashFn, p: Policy, y: System, id: SeqNum, app: AppFn)
    returns (ys: seq<System>, sts: seq<Step>)
    requires Good(hf, p, y) && 1 <= id <= |y.frozen| && NeedsRecover(y.server, y.frozen[id - 1])
    ensures Path(hf, p, ys, sts) && |sts| == 3 && ys[0] == y
    ensures
      var z := ys[3];
      && Good(hf, p, z) && z.client == y.client && z.frozen == y.frozen
      && z.server.committedUpto == |y.frozen| && !NeedsRecover(z.server, z.frozen[id - 1])
  {
    hide NeedsRecover, ClientOk, ServerOk, MessagesOk, FrozenOk, AcksOk, NothingLost, Apply, Enabled;
    ys, sts := RecoverPath(hf, p, y, id, app);
    PathGood(hf, p, ys, sts, 3);
    OneShotRecovery(hf, y.client, y.server, y.frozen, id, app);
  }

  /** One round, with or without recovery, shrinks what is outstanding. */
  lemma DrainRound(hf: HashFn, p: Policy, y: System, app: AppFn) returns (ys: seq<System>, sts: seq<Step>, id: SeqNum)
    requires Good(hf, p, y) && Caught(y) && y.client.inflight != map[]
    ensures Path(hf, p, ys, sts) && |sts| <= 5 && ys[0] == y && Drained(hf, p, y, ys[|sts|], id)
  {
    hide Agreement, NothingLost, AcksOk, NeedsRecover, Enabled, Apply;
    id := ProgressStep(hf, p, y);
    if NeedsRecover(y.server, y.frozen[id - 1]) {
      var a, sa := RecoverRound(hf, p, y, id, app);
      var z := a[3];
      AllCaught(hf, z);
      var b, sb := AnswerRound(hf, p, z, id, app);
      PathConcat(hf, p, a, sa, b, sb);
      ys, sts := a + b[1..], sa + sb;
    } else {
      ys, sts := AnswerRound(hf, p, y, id, app);
    }
  }

  lemma AllCaught(hf: HashFn, y: System)
    requires Agreement(hf, y) && y.server.committedUpto == |y.frozen|
    ensures Caught(y) && forall i :: i in y.client.inflight ==> i <= y.server.committedUpto
  {
    hide ClientHistoryOk, ServerOk, MessagesOk, FrozenOk;
  }

  /** From any such state there is a schedule of at most five steps per outstanding request
      after which nothing is outstanding. */
  lemma {:induction false} Drain(hf: HashFn, p: Policy, y: System, app: AppFn) returns (ys: seq<System>, sts: seq<Step>)
    requires Good(hf, p, y) && Caught(y)
    ensures Path(hf, p, ys, sts) && |sts| <= 5 * |y.client.inflight| && ys[0] == y
    ensures
      var z := ys[|sts|];
      Good(hf, p, z) && Caught(z) && z.frozen == y.frozen && z.client.inflight == map[]
    decreases |y.client.inflight|
  {
    hide Good, Caught, Enabled, Apply;
    if y.client.inflight == map[] {
      ys, sts := [y], [];
    } else {
      var a, sa, id := DrainRound(hf, p, y, app);
      var z := a[|sa|];
      assert z.client.inflight.Keys == y.client.inflight.Keys - {id};
      assert |z.client.inflight| == |y.client.inflight| - 1;
      var b, sb := Drain(hf, p, z, app);
      PathConcat(hf, p, a, sa, b, sb);
      ys, sts := a + b[1..], sa + sb;
    }
  }

  /** Once nothing is outstanding and the server has caught up, both sides hold the same history. */
  lemma DrainedAgrees(hf: HashFn, y: System)
    requires Agreement(hf, y) && AcksOk(y) && Caught(y) && y.client.inflight == map[]
    ensures y.server.committedUpto == |y.frozen| == y.client.nextSeq - 1
    ensures y.server.history.curHash == y.client.history.curHash
    ensures y.server.history.EventCount() == |y.client.history.events|
    ensures forall i :: 1 <= i < y.client.nextSeq ==> i in y.client.received
  {
    hide TablesOk, OnceOk, MessagesOk, FrozenOk, AcksOk;
    var n := |y.frozen|;
    forall i | 1 <= i <= n ensures i in y.client.received {
      assert i !in y.client.inflight;
    }
    if n > y.server.committedUpto {
      assert n in y.client.received;
      var _ := AcknowledgerOutstanding(hf, y, n);
      assert false;
    }
  }

  // ---- crash-free: in id order, two steps each ----

  /** Without crashes the lowest outstanding request is always at the frontier: delivering it
      and then its answer takes it off, with no recovery. */
  lemma LowestRound(hf: HashFn, p: Policy, y: System, app: AppFn)
    returns (low: SeqNum, ys: seq<System>, sts: seq<Step>)
    requires p.crashFree && Good(hf, p, y) && Steady(hf, y) && y.client.inflight != map[]
    ensures low in y.client.inflight && forall i :: i in y.client.inflight ==> low <= i
    ensures Path(hf, p, ys, sts) && |sts| == 2 && ys[0] == y
    ensures sts[0] == DeliverRequest(low, app) && sts[1].DeliverResponse? && IsAnswer(sts[1].resp, low)
    ensures ys[2].client.inflight == y.client.inflight - {low} && ys[2].frozen == y.frozen
    ensures Good(hf, p, ys[2]) && Steady(hf, ys[2])
  {
    hide ClientHistoryOk, ServerOk, MessagesOk, FrozenOk, NeedsRecover, SteadyServer, AcksOk, Enabled, Apply;
    assert y.client.inflight.Keys != {};
    low := Least(y.client.inflight.Keys);
    if low > 1 {
      assert low - 1 !in y.client.inflight;
      assert low - 1 in y.client.received;
    }
    OutstandingNeedsNoRecovery(hf, y, low);
    ys, sts := AnswerRound(hf, p, y, low, app);
    assert Enabled(p, ys[0], sts[0]) && Enabled(p, ys[1], sts[1]);
    StepSteady(hf, p, y, sts[0]);
    StepGood(hf, p, y, sts[0]);
    StepSteady(hf, p, ys[1], sts[1]);
  }

  lemma OutstandingNeedsNoRecovery(hf: HashFn, y: System, id: SeqNum)
    requires Agreement(hf, y) && Steady(hf, y) && id in y.client.inflight
    ensures 1 <= id <= |y.frozen| && !NeedsRecover(y.server, y.frozen[id - 1])
  {
    hide ClientHistoryOk, ServerOk, MessagesOk, SteadyServer, NeedsRecover;
    assert RequestOk(hf, y.frozen, id - 1, y.client.received);
    NoRecoveryNeeded(hf, y.server, y.frozen, y.client.received, id - 1);
  }

  lemma {:induction false} DrainInOrder(hf: HashFn, p: Policy, y: System, app: AppFn)
    returns (ys: seq<System>, sts: seq<Step>)
    requires p.crashFree && Good(hf, p, y) && Steady(hf, y)
    ensures Path(hf, p, ys, sts) && |sts| == 2 * |y.client.inflight| && ys[0] == y
    ensures ys[|sts|].client.inflight == map[] && ys[|sts|].frozen == y.frozen
    decreases |y.client.inflight|
  {
    hide Good, Steady, Enabled, Apply;
    if y.client.inflight == map[] {
      ys, sts := [y], [];
    } else {
      var low, a, sa := LowestRound(hf, p, y, app);
      var z := a[2];
      assert z.client.inflight.Keys == y.client.inflight.Keys - {low};
      assert |z.client.inflight| == |y.client.inflight| - 1;
      var b, sb := DrainInOrder(hf, p, z, app);
      PathConcat(hf, p, a, sa, b, sb);
      ys, sts := a + b[1..], sa + sb;
    }
  }

  /** Every crash-free run can be continued to one with nothing outstanding, in one round trip
      per outstanding request. */
  lemma EveryRunDrains(hf: HashFn, p: Policy, ys: seq<System>, sts: seq<Step>, app: AppFn)
    returns (zs: seq<System>, more: seq<Step>)
    requires p.crashFree && Run(hf, p, ys, sts)
    ensures Run(hf, p, zs, sts + more) && |more| == 2 * |ys[|sts|].client.inflight|
    ensures zs[..|ys|] == ys && zs[|sts| + |more|].client.inflight == map[]
  {
    hide Good, Steady, Enabled, Apply, Init;
    RunGood(hf, p, ys, sts, |sts|);
    RunSteady(hf, p, ys, sts, |sts|);
    var tail, m := DrainInOrder(hf, p, ys[|sts|], app);
    PathConcat(hf, p, ys, sts, tail, m);
    zs, more := ys + tail[1..], m;
  }

  /** Every run with failovers and quiescent checkpoints, with room in the window, can be continued
      by one more request and at most five steps per outstanding one to a state with nothing
      outstanding, everything committed, and the same hash on both sides. */
  lemma EveryFailoverRunDrains(hf: HashFn, p: Policy, ys: seq<System>, sts: seq<Step>, payload: string, app: AppFn)
    returns (zs: seq<System>, more: seq<Step>)
    requires p.quiescent && Run(hf, p, ys, sts) && |ys[|sts|].client.inflight| < p.window
    ensures Run(hf, p, zs, sts + [Generate(payload)] + more) && zs[..|ys|] == ys
    ensures |more| <= 5 * (|ys[|sts|].client.inflight| + 1)
    ensures
      var z := zs[|sts| + 1 + |more|];
      && z.client.inflight == map[] && z.server.committedUpto == |z.frozen| == z.client.nextSeq - 1
      && z.server.history.curHash == z.client.history.curHash
  {
    hide Good, Enabled, Apply, Init;
    var y := ys[|sts|];
    var g := Generate(payload);
    RunGood(hf, p, ys, sts, |sts|);
    RoomToGenerate(hf, p, y, payload);
    var y' := Apply(hf, y, g);
    StepGood(hf, p, y, g);
    OneStep(hf, p, y, g);
    PathConcat(hf, p, ys, sts, [y, y'], [g]);
    var a, sa := ys + [y, y'][1..], sts + [g];
    var b, sb := Drain(hf, p, y', app);
    PathConcat(hf, p, a, sa, b, sb);
    zs, more := a + b[1..], sb;
    GoodParts(hf, p, b[|sb|]);
    DrainedAgrees(hf, b[|sb|]);
  }

  lemma RoomToGenerate(hf: HashFn, p: Policy, y: System, payload: string)
    requires |y.client.inflight| < p.window
    ensures Enabled(p, y, Generate(payload))
    ensures
      var y' := Apply(hf, y, Generate(payload));
      Caught(y') && |y'.client.inflight| <= |y.client.inflight| + 1
  {
    hide AppendAll, FrozenRequest;
    OneMore(y.client.inflight, y.client.nextSeq, FrozenRequest(hf, y.client, payload));
  }

  lemma OneMore(m: map<SeqNum, Request>, id: SeqNum, r: Request)
    ensures |m[id := r]| <= |m| + 1
  {
    assert m[id := r].Keys == m.Keys + {id};
  }

  // ---- why unacknowledged receipts ahead of the server matter ----

  lemma TwoGenerated(hf: HashFn, p: Policy) returns (ys: seq<System>, sts: seq<Step>)
    requires p.window == 2
    ensures Run(hf, p, ys, sts) && |sts| == 2
    ensures
      var y := ys[2];
      && y.client.inflight.Keys == {1, 2} && y.client.pendingNew == [] && y.client.received == {}
      && |y.frozen| == 2 && y.frozen[0].ackBase == 1 && y.frozen[0].ackNew == []
      && y.frozen[1].id == 2 && y.frozen[1].ackBase == 1 && y.frozen[1].ackNew == []
      && y.server.committedUpto == 0 && EmptyCheckpoint(hf) in y.checkpoints
  {
    hide AppendAll;
    var y0 := Init(hf, true, true);
    var y1 := Apply(hf, y0, Generate("a"));
    var y2 := Apply(hf, y1, Generate("b"));
    assert y1.client.inflight.Keys == {1} && y2.client.inflight.Keys == {1, 2};
    OneStep(hf, p, y0, Generate("a"));
    OneStep(hf, p, y1, Generate("b"));
    PathConcat(hf, p, [y0, y1], [Generate("a")], [y1, y2], [Generate("b")]);
    ys, sts := [y0, y1] + [y1, y2][1..], [Generate("a")] + [Generate("b")];
  }

  lemma RoundLeaves(hf: HashFn, p: Policy, ys: seq<System>, sts: seq<Step>, id: SeqNum)
    requires Path(hf, p, ys, sts) && |sts| == 2
    requires sts[0].DeliverRequest? && sts[1].DeliverResponse? && IsAnswer(sts[1].resp, id)
    requires id !in ys[0].client.received
    ensures ys[2].client.pendingNew == ys[0].client.pendingNew + [id]
    ensures ys[2].checkpoints == ys[0].checkpoints && ys[2].frozen == ys[0].frozen
  {
    hide OnRequest, AdvanceBase;
    assert Enabled(p, ys[0], sts[0]) && Enabled(p, ys[1], sts[1]);
  }

  lemma CrashToStart(hf: HashFn, p: Policy, y: System)
    requires !p.crashFree && EmptyCheckpoint(hf) in y.checkpoints
    ensures Enabled(p, y, Crash(EmptyCheckpoint(hf)))
    ensures
      var z := Apply(hf, y, Crash(EmptyCheckpoint(hf)));
      && z.client == y.client && z.frozen == y.frozen
      && z.server.committedUpto == 0 && z.server.pendingReqs == map[]
  {
  }

  /** The server after n copies of a request. */
  function Copied(hf: HashFn, s: ServerState, req: Request, app: AppFn, n: nat): ServerState {
    if n == 0 then s else OnRequest(hf, Copied(hf, s, req, app, n - 1), req, app).state
  }

  /** A lag known only through receipts not yet acknowledged is invisible to the server. After
      this run request 2 is outstanding, and delivering it brings neither an answer nor a
      recovery signal, however many copies are delivered. */
  lemma InvisibleLag(hf: HashFn, app: AppFn) returns (ys: seq<System>, sts: seq<Step>)
    ensures Run(hf, Policy(2, false, true), ys, sts)
    ensures
      var y := ys[|sts|];
      && y.client.inflight.Keys == {2} && 2 <= |y.frozen| && y.client.pendingNew == [1]
      && y.server.committedUpto == 0
      && forall n :: OnRequest(hf, Copied(hf, y.server, y.frozen[1], app, n), y.frozen[1], app).out == []
  {
    hide Init, Good, Enabled, Apply, OnRequest, NeedsRecover, IsAnswer;
    var p := Policy(2, false, true);
    var a, sa := TwoGenerated(hf, p);
    RunGood(hf, p, a, sa, 2);
    AtFrontier(a[2]);
    var b, sb := AnswerRound(hf, p, a[2], 1, app);
    RoundLeaves(hf, p, b, sb, 1);
    PathConcat(hf, p, a, sa, b, sb);
    var crash := Crash(EmptyCheckpoint(hf));
    CrashToStart(hf, p, b[2]);
    var z := Apply(hf, b[2], crash);
    OneStep(hf, p, b[2], crash);
    PathConcat(hf, p, a + b[1..], sa + sb, [b[2], z], [crash]);
    ys, sts := a + b[1..] + [b[2], z][1..], sa + sb + [crash];
    forall n ensures OnRequest(hf, Copied(hf, z.server, z.frozen[1], app, n), z.frozen[1], app).out == [] {
      CopiesStagedAlone(hf, z.server, z.frozen[1], app, n);
      StagedAlone(hf, Copied(hf, z.server, z.frozen[1], app, n), z.frozen[1], app);
    }
  }

  lemma AtFrontier(y: System)
    requires |y.frozen| == 2 && y.frozen[0].ackBase == 1 && y.frozen[0].ackNew == []
    requires y.client.pendingNew == []
    ensures !NeedsRecover(y.server, y.frozen[0]) && Caught(y)
  {
  }

  lemma StagedAlone(hf: HashFn, s: ServerState, req: Request, app: AppFn)
    requires s.committedUpto == 0 && 1 !in s.pendingReqs && req.id == 2 && req.ackBase == 1 && req.ackNew == []
    ensures
      var res := OnRequest(hf, s, req, app);
      res.out == [] && res.state.committedUpto == 0 && 1 !in res.state.pendingReqs
  {
  }

  lemma {:induction false} CopiesStagedAlone(hf: HashFn, s: ServerState, req: Request, app: AppFn, n: nat)
    requires s.committedUpto == 0 && 1 !in s.pendingReqs && req.id == 2 && req.ackBase == 1 && req.ackNew == []
    ensures
      var t := Copied(hf, s, req, app, n);
      t.committedUpto == 0 && 1 !in t.pendingReqs
  {
    hide OnRequest;
    if n > 0 {
      CopiesStagedAlone(hf, s, req, app, n - 1);
      StagedAlone(hf, Copied(hf, s, req, app, n - 1), req, app);
    }
  }
}
