/** No answer is lost: every committed request is buffered, awaiting, or already
    received by the client, provided checkpoints are taken while nothing awaits. */
module Answers {
  import opened Messages
  import opened History
  import opened Canon
  import opened Server
  import opened Protocol
  import opened Safety
  import opened Runs
  import opened Restoration

  ghost predicate Covered(s: ServerState, received: set<SeqNum>) {
    forall i :: 1 <= i <= s.committedUpto ==> i in s.respBuffer || i in s.awaiting || i in received
  }

  ghost predicate CheckpointCovers(cp: Checkpoint, received: set<SeqNum>) {
    && (forall j, k :: 0 <= j < k < |cp.buffer| ==> cp.buffer[j].id != cp.buffer[k].id)
    && forall i :: 1 <= i <= cp.committedUpto ==> Lists(cp.buffer, i) || i in received
  }

  ghost predicate NoOpsKnown(out: seq<Response>, received: set<SeqNum>) {
    forall r :: r in out && r.noOp ==> r.id in received
  }

  /** Nothing is lost, and a no-op only ever repeats what the client already has. */
  ghost predicate NothingLost(p: Policy, y: System) {
    && Covered(y.server, y.client.received)
    && (forall r :: r in y.responses && r.noOp ==> r.id in y.client.received)
    && (!p.crashFree ==> forall cp :: cp in y.checkpoints ==> CheckpointCovers(cp, y.client.received))
  }

  lemma ReleaseCovered(hf: HashFn, s: ServerState, frozen: seq<Request>, k: nat, received: set<SeqNum>)
    requires k < |frozen| && RequestOk(hf, frozen, k, received) && Covered(s, received)
    ensures Covered(Release(s, frozen[k]), received)
  {
  }

  lemma CommitNextCovered(hf: HashFn, s: ServerState, received: set<SeqNum>, app: AppFn)
    requires Keyed(s) && Covered(s, received) && s.committedUpto + 1 in s.pendingReqs
    ensures Covered(CommitNext(hf, s, app), received) && Keyed(CommitNext(hf, s, app))
  {
    hide AppendAll;
  }

  lemma {:induction false} CommitLoopCovered(hf: HashFn, s: ServerState, received: set<SeqNum>, app: AppFn)
    requires Keyed(s) && Covered(s, received)
    ensures
      var res := CommitLoop(hf, s, app);
      Covered(res.state, received) && NoOpsKnown(res.out, received)
    decreases |s.pendingReqs|
  {
    hide CommitNext, Covered, Keyed;
    if s.committedUpto + 1 in s.pendingReqs {
      CommitNextCovered(hf, s, received, app);
      CommitLoopTurn(hf, s, app, []);
      CommitLoopCovered(hf, CommitNext(hf, s, app), received, app);
    }
  }

  lemma AnswerCovered(s: ServerState, req: Request, received: set<SeqNum>, app: AppFn)
    requires Covered(s, received) && 1 <= req.id <= s.committedUpto
    ensures
      var res := AnswerCommitted(s, req, app);
      Covered(res.state, received) && NoOpsKnown(res.out, received)
  {
  }

  lemma OkKeyed(hf: HashFn, s: ServerState, frozen: seq<Request>, received: set<SeqNum>)
    requires FrozenOk(hf, frozen, received) && ServerOk(hf, s, frozen)
    ensures Keyed(s)
  {
    forall i | i in s.pendingReqs ensures s.pendingReqs[i].id == i {
      assert RequestOk(hf, frozen, i - 1, received);
    }
  }

  lemma OnRequestCovered(
      hf: HashFn, s: ServerState, frozen: seq<Request>, received: set<SeqNum>, id: SeqNum, app: AppFn)
    requires FrozenOk(hf, frozen, received) && ServerOk(hf, s, frozen) && Covered(s, received)
    requires 1 <= id <= |frozen|
    ensures
      var res := OnRequest(hf, s, frozen[id - 1], app);
      Covered(res.state, received) && NoOpsKnown(res.out, received)
  {
    var req := frozen[id - 1];
    assert RequestOk(hf, frozen, id - 1, received);
    OkKeyed(hf, s, frozen, received);
    hide ServerOk, CommitLoop, AnswerCommitted;
    ReleaseCovered(hf, s, frozen, id - 1, received);
    var s1 := Release(s, req);
    if req.id <= s1.committedUpto {
      AnswerCovered(s1, req, received, app);
    } else {
      CommitLoopCovered(hf, Stage(s1, req), received, app);
    }
  }

  lemma IngestedBlockCovered(hf: HashFn, s: ServerState, frozen: seq<Request>, received: set<SeqNum>)
    requires s.committedUpto < |frozen| && RequestOk(hf, frozen, s.committedUpto, received) && Covered(s, received)
    ensures Covered(IngestedBlock(hf, s, frozen[s.committedUpto]), received)
  {
    hide AppendAll;
  }

  lemma {:induction false} IngestCovered(
      hf: HashFn, s: ServerState, frozen: seq<Request>, received: set<SeqNum>, m: nat)
    requires FrozenOk(hf, frozen, received) && ServerOk(hf, s, frozen) && s.committedUpto <= m <= |frozen|
    requires Covered(s, received)
    ensures Covered(IngestEvents(hf, s, Between(frozen, s.committedUpto, m)), received)
  {
    hide ServerOk, Covered, IngestedBlock, Block;
    if s.committedUpto < m {
      IngestCovered(hf, s, frozen, received, m - 1);
      IngestCut(hf, s, frozen, received, m - 1);
      var es := Between(frozen, s.committedUpto, m - 1);
      BetweenStep(frozen, s.committedUpto, m);
      IngestConcat(hf, s, es, Block(frozen[m - 1]));
      IngestBlock(hf, IngestEvents(hf, s, es), frozen[m - 1]);
      assert RequestOk(hf, frozen, m - 1, received);
      IngestedBlockCovered(hf, IngestEvents(hf, s, es), frozen, received);
    }
  }

  lemma RestoredKeys(cp: Checkpoint, setHash: bool)
    requires forall j, k :: 0 <= j < k < |cp.buffer| ==> cp.buffer[j].id != cp.buffer[k].id
    ensures
      var t := Restore(cp, setHash);
      && t.committedUpto == cp.committedUpto && t.awaiting == {}
      && forall i :: i in t.respBuffer <==> Lists(cp.buffer, i)
  {
    RestoreBufferContents(
      ServerState(setHash, cp.committedUpto, map[], map[], map[], {}, map[],
                  Resumed(cp.historyHash, cp.eventCount), 0, 0, 0, []), cp.buffer);
  }

  /** `checkpoint()` does not save what awaits an answer. Restoring from it loses no answer
      exactly when the client already holds every awaited one. */
  lemma RestoreCoversExactly(hf: HashFn, s: ServerState, cp: Checkpoint, frozen: seq<Request>, received: set<SeqNum>)
    requires ServerOk(hf, s, frozen) && Covered(s, received) && IsCheckpointOf(cp, s)
    ensures Covered(Restore(cp, s.setHash), received) <==> s.awaiting <= received
  {
    RestoredKeys(cp, s.setHash);
    var t := Restore(cp, s.setHash);
    assert forall i :: i in t.respBuffer <==> i in s.respBuffer;
    if Covered(t, received) {
      forall i | i in s.awaiting ensures i in received {
        assert 1 <= i <= t.committedUpto && i !in t.respBuffer;
      }
    }
  }

  lemma DeliverLosesNothing(hf: HashFn, p: Policy, y: System, id: SeqNum, app: AppFn)
    requires Agreement(hf, y) && NothingLost(p, y) && 1 <= id <= |y.frozen|
    ensures NothingLost(p, Apply(hf, y, DeliverRequest(id, app)))
  {
    hide OnRequest, ServerOk, ClientOk, FrozenOk, MessagesOk;
    OnRequestCovered(hf, y.server, y.frozen, y.client.received, id, app);
  }

  lemma ReplayLosesNothing(hf: HashFn, p: Policy, y: System, b: BuiltReplay)
    requires Agreement(hf, y) && NothingLost(p, y) && Enabled(p, y, IngestReplay(b))
    ensures NothingLost(p, Apply(hf, y, IngestReplay(b)))
  {
    hide Covered, ClientOk, FrozenOk, IngestEvents, Between;
    if b.replay.events == [] {
      IngestEmpty(hf, y.server, b.replay);
      return;
    }
    UnheldIsBetween(hf, y.server, y.frozen, b);
    if y.server.committedUpto < b.generated {
      IngestCovered(hf, y.server, y.frozen, y.client.received, b.generated);
    } else {
      IngestNothing(hf, y.server);
    }
  }

  lemma IngestNothing(hf: HashFn, s: ServerState)
    ensures IngestEvents(hf, s, []) == s
  {
  }

  lemma StepLosesNothing(hf: HashFn, p: Policy, y: System, st: Step)
    requires p.quiescent || p.crashFree
    requires Agreement(hf, y) && NothingLost(p, y) && Enabled(p, y, st)
    ensures NothingLost(p, Apply(hf, y, st))
  {
    hide Agreement, OnRequest, Ingest, Restore;
    match st
    case DeliverRequest(id, app) =>
      DeliverLosesNothing(hf, p, y, id, app);
    case IngestReplay(b) =>
      ReplayLosesNothing(hf, p, y, b);
    case Crash(cp) =>
      RestoredKeys(cp, y.server.setHash);
    case _ =>
  }

  lemma InitLosesNothing(hf: HashFn, p: Policy, ys: seq<System>, sts: seq<Step>)
    requires Run(hf, p, ys, sts)
    ensures NothingLost(p, ys[0])
  {
  }

  lemma {:induction false} RunLosesNothing(hf: HashFn, p: Policy, ys: seq<System>, sts: seq<Step>, k: nat)
    requires p.quiescent || p.crashFree
    requires Run(hf, p, ys, sts) && k <= |sts|
    ensures NothingLost(p, ys[k])
  {
    hide Agreement, NothingLost, Apply, Enabled, Init;
    if k == 0 {
      InitLosesNothing(hf, p, ys, sts);
    } else {
      RunLosesNothing(hf, p, ys, sts, k - 1);
      RunAgrees(hf, p, ys, sts, k - 1);
      assert Enabled(p, ys[k - 1], sts[k - 1]);
      StepLosesNothing(hf, p, ys[k - 1], sts[k - 1]);
    }
  }

  /** Across any number of failovers, every committed request is buffered, awaiting an answer,
      or answered; so the first response a client receives for an id is never a no-op. */
  lemma NoLostAnswer(hf: HashFn, p: Policy, ys: seq<System>, sts: seq<Step>, k: nat)
    requires p.quiescent || p.crashFree
    requires Run(hf, p, ys, sts) && k <= |sts|
    ensures
      var y := ys[k];
      forall i :: 1 <= i <= y.server.committedUpto ==>
        i in y.server.respBuffer || i in y.server.awaiting || i in y.client.received
    ensures k < |sts| && sts[k].DeliverResponse? && sts[k].resp.id !in ys[k].client.received ==> !sts[k].resp.noOp
  {
    RunLosesNothing(hf, p, ys, sts, k);
    if k < |sts| && sts[k].DeliverResponse? {
      assert Enabled(p, ys[k], sts[k]);
    }
  }
}
