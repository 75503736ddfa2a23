/** Runs in which the code does not keep a property: replays ingested across a gap, answers lost
    through a checkpoint, a drained conversation that fails its check, staging without bound. Each
    is a whole run of the transition system, and where it can be, one for every state it can start
    from. */
module Failures {
  import opened Messages
  import opened History
  import opened Canon
  import opened Client
  import opened Server
  import opened Commits
  import opened Protocol
  import opened Safety
  import opened Runs
  import opened Recovery
  import opened Restoration
  import opened Answers
  import opened Acknowledgements
  import opened CrashFree
  import opened Window
  import opened Progress
  import opened Reachability
  import opened Tightness
  import opened Checker

  // ---- conversations without crashes, to start from ----

  lemma Asked(hf: HashFn, p: Policy, y: System, payload: string) returns (z: System)
    requires Reachable(hf, p, y) && |y.client.inflight| < p.window
    ensures Reachable(hf, p, z) && z == Apply(hf, y, Generate(payload))
    ensures z.frozen == y.frozen + [FrozenRequest(hf, y.client, payload)] && |z.frozen| == |y.frozen| + 1
    ensures z.client.inflight.Keys == y.client.inflight.Keys + {|z.frozen|} && z.client.pendingNew == []
    ensures z.client.received == y.client.received && |z.frozen| !in y.client.received
    ensures z == y.(client := z.client, frozen := z.frozen) && z.client.base == y.client.base
    ensures
      var r := z.frozen[|y.frozen|];
      r.ackBase == y.client.base && r.ackNew == y.client.pendingNew
  {
    hide Reachable, Agreement, Apply;
    ReachableAgrees(hf, p, y);
    StepReachable(hf, p, y, Generate(payload));
    z := Apply(hf, y, Generate(payload));
    Generated(hf, y, payload);
  }

  lemma Generated(hf: HashFn, y: System, payload: string)
    requires Agreement(hf, y)
    ensures
      var z := Apply(hf, y, Generate(payload));
      && z == y.(client := z.client, frozen := y.frozen + [FrozenRequest(hf, y.client, payload)])
      && z.client.inflight.Keys == y.client.inflight.Keys + {|z.frozen|} && z.client.pendingNew == []
      && z.client.received == y.client.received && |z.frozen| !in y.client.received
      && z.client.base == y.client.base
      && FrozenRequest(hf, y.client, payload).ackBase == y.client.base
      && FrozenRequest(hf, y.client, payload).ackNew == y.client.pendingNew
  {
    hide AppendAll, ServerOk, MessagesOk, FrozenOk, Cut, HashAt, Represents;
  }

  /** Deliver an outstanding request at the frontier, and its answer. */
  lemma Answered(hf: HashFn, p: Policy, y: System, id: SeqNum, app: AppFn) returns (z: System)
    requires p.crashFree && Reachable(hf, p, y)
    requires id in y.client.inflight && id <= y.server.committedUpto + 1
    ensures Reachable(hf, p, z) && z.frozen == y.frozen && z.checkpoints == y.checkpoints
    ensures z.client.inflight == y.client.inflight - {id} && z.client.pendingNew == y.client.pendingNew + [id]
    ensures id <= z.server.committedUpto && y.server.committedUpto <= z.server.committedUpto
  {
    hide Reachable, Good, Steady, Enabled, Apply, IsAnswer, NeedsRecover, Agreement;
    ReachableAgrees(hf, p, y);
    ReachableSteady(hf, p, y);
    SteadyOutstanding(hf, p, y, id);
    var ys, sts := AnswerRound(hf, p, y, id, app);
    RoundLeaves(hf, p, ys, sts, id);
    RoundCommits(hf, p, ys, sts);
    PathReachable(hf, p, ys, sts);
    z := ys[2];
    ReachableSteady(hf, p, z);
    OutOfTable(hf, p, z, id);
  }

  lemma SteadyOutstanding(hf: HashFn, p: Policy, y: System, id: SeqNum)
    requires Good(hf, p, y) && Steady(hf, y) && id in y.client.inflight
    ensures 1 <= id <= |y.frozen| && !NeedsRecover(y.server, y.frozen[id - 1]) && Caught(y)
    ensures id !in y.client.received
  {
    hide ServerOk, MessagesOk, FrozenOk, NeedsRecover, SteadyServer, ClientHistoryOk;
    OutstandingNeedsNoRecovery(hf, y, id);
  }

  lemma OutOfTable(hf: HashFn, p: Policy, y: System, id: SeqNum)
    requires Good(hf, p, y) && Steady(hf, y) && 1 <= id <= |y.frozen| && id !in y.client.inflight
    ensures id in y.client.received && id <= y.server.committedUpto
  {
    hide ServerOk, MessagesOk, FrozenOk, SteadyServer, ClientHistoryOk;
  }

  lemma RoundCommits(hf: HashFn, p: Policy, ys: seq<System>, sts: seq<Step>)
    requires Path(hf, p, ys, sts) && |sts| == 2 && Agreement(hf, ys[0])
    requires sts[0].DeliverRequest? && sts[1].DeliverResponse?
    ensures ys[2].server.committedUpto >= ys[0].server.committedUpto
  {
    hide OnRequest, OnResponse, ClientOk, MessagesOk;
    assert Enabled(p, ys[0], sts[0]) && Enabled(p, ys[1], sts[1]);
    var y := ys[0];
    OkKeyed(hf, y.server, y.frozen, y.client.received);
    FrontierRises(hf, y.server, y.frozen[sts[0].id - 1], sts[0].app);
  }

  lemma FrontierRises(hf: HashFn, s: ServerState, req: Request, app: AppFn)
    requires Keyed(s)
    ensures OnRequest(hf, s, req, app).state.committedUpto >= s.committedUpto
  {
    hide CommitLoop;
    if req.id > s.committedUpto {
      CommitLoopAnswers(hf, Stage(Release(s, req), req), app);
    }
  }

  /** One request more, answered, with nothing outstanding before or after. */
  lemma Exchange(hf: HashFn, p: Policy, y: System, app: AppFn) returns (z: System)
    requires p.crashFree && p.window >= 1 && Reachable(hf, p, y) && y.client.inflight == map[]
    requires y.server.committedUpto == |y.frozen|
    ensures Reachable(hf, p, z) && |z.frozen| == |y.frozen| + 1 && z.checkpoints == y.checkpoints
    ensures z.client.inflight == map[] && z.client.pendingNew == [|z.frozen|]
    ensures z.server.committedUpto == |z.frozen|
  {
    hide Reachable, Apply, FrozenRequest;
    var x := Asked(hf, p, y, "");
    z := Answered(hf, p, x, |x.frozen|, app);
    assert z.client.inflight.Keys == {};
    assert z.client.inflight == map[];
    FrontierGenerated(hf, p, z);
  }

  lemma FrontierGenerated(hf: HashFn, p: Policy, y: System)
    requires Reachable(hf, p, y)
    ensures y.server.committedUpto <= |y.frozen|
  {
    hide Reachable;
    ReachableAgrees(hf, p, y);
  }

  // ---- a replay ingested across a gap ----

  /** A listing of part of what is buffered. */
  ghost predicate Listing(s: ServerState, keys: set<SeqNum>, buffer: seq<BufferedResponse>) {
    && (forall j :: 0 <= j < |buffer| ==>
          && buffer[j].id in keys && buffer[j].id in s.respBuffer
          && buffer[j].payload == s.respBuffer[buffer[j].id] && buffer[j].hash == SavedHash(s, buffer[j].id))
    && (forall j, k :: 0 <= j < k < |buffer| ==> buffer[j].id != buffer[k].id)
    && (forall i :: i in keys ==> Lists(buffer, i))
  }

  lemma {:induction false} ListBuffer(s: ServerState, keys: set<SeqNum>) returns (buffer: seq<BufferedResponse>)
    requires keys <= s.respBuffer.Keys
    ensures Listing(s, keys, buffer)
    decreases keys
  {
    if keys == {} {
      buffer := [];
    } else {
      var i :| i in keys;
      var rest := ListBuffer(s, keys - {i});
      buffer := [BufferedResponse(i, s.respBuffer[i], SavedHash(s, i))] + rest;
      assert buffer[0].id == i;
      forall k | k in keys ensures Lists(buffer, k) {
        if k != i {
          assert Lists(rest, k);
          var j :| 0 <= j < |rest| && rest[j].id == k;
          assert buffer[j + 1].id == k;
        }
      }
    }
  }

  lemma SomeCheckpoint(s: ServerState) returns (cp: Checkpoint)
    ensures IsCheckpointOf(cp, s)
  {
    var buffer := ListBuffer(s, s.respBuffer.Keys);
    cp := Checkpoint(s.committedUpto, s.history.EventCount(), s.history.curHash, buffer);
  }

  lemma Checkpointed(hf: HashFn, p: Policy, y: System) returns (z: System, cp: Checkpoint)
    requires p.crashFree && Reachable(hf, p, y)
    ensures Reachable(hf, p, z) && z == y.(checkpoints := y.checkpoints + {cp}) && IsCheckpointOf(cp, y.server)
  {
    hide Reachable, Represents, Cut, IsCheckpointOf, Good;
    ReachableSteady(hf, p, y);
    cp := SomeCheckpoint(y.server);
    StepReachable(hf, p, y, TakeCheckpoint(cp));
    z := Apply(hf, y, TakeCheckpoint(cp));
  }

  /** What a server restored from a checkpoint keeps of it. */
  lemma RestoredFrontier(cp: Checkpoint, setHash: bool)
    requires forall j, k :: 0 <= j < k < |cp.buffer| ==> cp.buffer[j].id != cp.buffer[k].id
    ensures
      var t := Restore(cp, setHash);
      && t.committedUpto == cp.committedUpto && t.history.EventCount() == cp.eventCount && t.awaiting == {}
      && forall i :: i in t.respBuffer <==> Lists(cp.buffer, i)
  {
    RestoredKeys(cp, setHash);
    RestoreBufferContents(
      ServerState(setHash, cp.committedUpto, map[], map[], map[], {}, map[],
                  Resumed(cp.historyHash, cp.eventCount), 0, 0, 0, []), cp.buffer);
  }

  /** Two exchanges with a checkpoint between them, a third request, and a crash back to the
      checkpoint: a server that holds something asks for recovery. */
  lemma AsksToRecover(hf: HashFn, app: AppFn) returns (y: System)
    ensures Reachable(hf, Policy(1, false, true), y) && |y.frozen| == 3
    ensures NeedsRecover(y.server, y.frozen[2]) && y.server.history.EventCount() > 0
  {
    hide Reachable, Restore, IsCheckpointOf, Agreement;
    var pc, p := Policy(1, true, true), Policy(1, false, true);
    InitReachable(hf, pc, true, true);
    var a := Exchange(hf, pc, Init(hf, true, true), app);
    var b, cp := Checkpointed(hf, pc, a);
    var c := Exchange(hf, pc, b, app);
    var d := Asked(hf, pc, c, "");
    Loosen(hf, pc, p, d);
    StepReachable(hf, p, d, Crash(cp));
    y := Apply(hf, d, Crash(cp));
    ReachableAgrees(hf, pc, a);
    ReachableAgrees(hf, pc, c);
    CheckpointHolds(hf, a, cp);
    RestoredFrontier(cp, d.server.setHash);
    AllReceived(hf, c);
  }

  lemma CheckpointHolds(hf: HashFn, y: System, cp: Checkpoint)
    requires Agreement(hf, y) && IsCheckpointOf(cp, y.server)
    ensures cp.committedUpto == y.server.committedUpto && cp.eventCount >= cp.committedUpto
    ensures forall j, k :: 0 <= j < k < |cp.buffer| ==> cp.buffer[j].id != cp.buffer[k].id
  {
    hide Cut, HashAt, MessagesOk, ClientOk, FrozenOk;
    CutPrefix(y.frozen, 0, y.server.committedUpto);
  }

  /** With nothing outstanding, the base is one past everything generated. */
  lemma AllReceived(hf: HashFn, y: System)
    requires Agreement(hf, y) && y.client.inflight == map[]
    ensures y.client.base == |y.frozen| + 1
  {
    hide ServerOk, MessagesOk, FrozenOk, ClientHistoryOk;
    assert y.client.base !in y.client.inflight;
    assert y.client.base > 1 ==> y.client.base - 1 in y.client.received;
  }

  /** From any reachable state in which a server that holds events asks for recovery: the replay is
      posted, the server crashes back to the start, and the posted replay arrives. The histories no
      longer match. */
  lemma GapDiverges(hf: HashFn, p: Policy, y: System, id: SeqNum, app: AppFn) returns (ys: seq<System>, sts: seq<Step>)
    requires Reachable(hf, p, y) && !p.crashFree && 1 <= id <= |y.frozen|
    requires NeedsRecover(y.server, y.frozen[id - 1]) && y.server.history.EventCount() > 0
    ensures AnyRun(hf, p, ys, sts) && !HistoriesMatch(hf, ys[|sts|])
  {
    hide Reachable, OnRequest, NeedsRecover, Ingest, Restore, HistoriesMatch, Agreement, BuildReplay;
    var from := y.server.history.EventCount();
    SignalStep(hf, y, id, app);
    StepReachable(hf, p, y, DeliverRequest(id, app));
    var y1 := Apply(hf, y, DeliverRequest(id, app));
    StepReachable(hf, p, y1, PostReplay(from));
    var y2 := Apply(hf, y1, PostReplay(from));
    CrashReachable(hf, p, y2);
    var y3 := Apply(hf, y2, Crash(EmptyCheckpoint(hf)));
    var b := BuiltReplay(BuildReplay(y.client, from), |y.frozen|);
    ReachableAgrees(hf, p, y);
    ReplayCarries(hf, y, id);
    ReachableAgrees(hf, p, y3);
    StepMatchesExactly(hf, p, y3, IngestReplay(b));
    ys, sts := RunOn(hf, p, y3, IngestReplay(b));
  }

  lemma ReplayCarries(hf: HashFn, y: System, id: SeqNum)
    requires Agreement(hf, y) && 1 <= id <= |y.frozen| && NeedsRecover(y.server, y.frozen[id - 1])
    ensures
      var rp := BuildReplay(y.client, y.server.history.EventCount());
      rp.from == y.server.history.EventCount() && rp.events != []
  {
    hide Cut, HashAt, MessagesOk, TablesOk, OnceOk, ReceiptsOk, BuildReplay;
    var from := y.server.history.EventCount();
    var req := y.frozen[id - 1];
    assert RequestOk(hf, y.frozen, id - 1, y.client.received);
    assert forall k :: 0 <= k < |req.ackNew| ==> req.ackNew[k] in req.ackNew;
    assert y.server.committedUpto < |y.frozen|;
    CutPrefix(y.frozen, y.server.committedUpto, |y.frozen|);
    ReplayLength(y.client, from);
  }

  lemma ReplayLength(c: ClientState, from: nat)
    ensures
      var rp := BuildReplay(c, from);
      rp.from == from && |rp.events| == if from <= |c.history.events| then |c.history.events| - from else 0
  {
  }

  /** A run to a reachable state and one more step that may be anything offered. */
  lemma RunOn(hf: HashFn, p: Policy, y: System, st: Step) returns (ys: seq<System>, sts: seq<Step>)
    requires Reachable(hf, p, y) && Offered(p, y, st)
    ensures AnyRun(hf, p, ys, sts) && ys[|sts|] == Apply(hf, y, st)
  {
    hide Apply;
    var zs, more :| EndsIn(hf, p, zs, more, y);
    ys, sts := zs + [Apply(hf, y, st)], more + [st];
    forall k {:trigger sts[k]} | 0 <= k < |sts|
      ensures Offered(p, ys[k], sts[k]) && ys[k + 1] == Apply(hf, ys[k], sts[k])
    {
      if k < |more| {
        assert sts[k] == more[k];
        assert Enabled(p, zs[k], more[k]);
      }
    }
  }

  /** So it happens, with a window of one and only quiescent checkpoints. */
  lemma GapRun(hf: HashFn, app: AppFn) returns (ys: seq<System>, sts: seq<Step>)
    ensures AnyRun(hf, Policy(1, false, true), ys, sts) && !HistoriesMatch(hf, ys[|sts|])
  {
    hide Reachable, AnyRun, HistoriesMatch, NeedsRecover;
    var y := AsksToRecover(hf, app);
    ys, sts := GapDiverges(hf, Policy(1, false, true), y, 3, app);
  }

  // ---- an answer lost through a checkpoint ----

  /** The server crashed back to a checkpoint taken while i awaited an answer. */
  lemma ForgottenAwaiting(hf: HashFn, y: System, cp: Checkpoint, i: SeqNum)
    requires Agreement(hf, y) && IsCheckpointOf(cp, y.server) && i in y.server.awaiting
    ensures
      var t := Restore(cp, y.server.setHash);
      && 1 <= i <= |y.frozen| && y.frozen[i - 1].id == i && i <= t.committedUpto
      && i !in t.respBuffer && i !in t.awaiting && !NeedsRecover(t, y.frozen[i - 1])
  {
    hide Cut, HashAt, Represents, MessagesOk, ClientOk, OnceOk, Restore;
    RestoredFrontier(cp, y.server.setHash);
    assert RequestOk(hf, y.frozen, i - 1, y.client.received);
    var req := y.frozen[i - 1];
    assert forall k :: 0 <= k < |req.ackNew| ==> req.ackNew[k] in req.ackNew;
  }

  /** From any reachable state in which a request that the client has no answer to is awaited: a
      checkpoint, a crash back to it, and the retry. The client's first response is a no-op. */
  lemma AwaitedIsLost(hf: HashFn, p: Policy, y: System, i: SeqNum, app: AppFn) returns (ys: seq<System>, sts: seq<Step>)
    requires Reachable(hf, p, y) && !p.crashFree && !p.quiescent
    requires i in y.server.awaiting && i !in y.client.received
    ensures Run(hf, p, ys, sts) && Silenced(ys, sts, |sts|, i)
  {
    hide Reachable, OnRequest, NeedsRecover, Restore, Agreement, IsCheckpointOf, OnResponse;
    var cp := SomeCheckpoint(y.server);
    StepReachable(hf, p, y, TakeCheckpoint(cp));
    var y1 := Apply(hf, y, TakeCheckpoint(cp));
    StepReachable(hf, p, y1, Crash(cp));
    var y2 := Apply(hf, y1, Crash(cp));
    ReachableAgrees(hf, p, y);
    ForgottenAwaiting(hf, y, cp, i);
    AnswersNothing(hf, y2.server, y.frozen[i - 1], app);
    StepReachable(hf, p, y2, DeliverRequest(i, app));
    var y3 := Apply(hf, y2, DeliverRequest(i, app));
    var r := OnRequest(hf, y2.server, y.frozen[i - 1], app).out[0];
    assert r in y3.responses;
    ys, sts := EndingWith(hf, p, y3, DeliverResponse(r));
    assert sts[|sts| - 1].resp.noOp;
  }

  lemma EndingWith(hf: HashFn, p: Policy, y: System, st: Step) returns (ys: seq<System>, sts: seq<Step>)
    requires Reachable(hf, p, y) && Enabled(p, y, st)
    ensures Run(hf, p, ys, sts) && |sts| > 0 && ys[|sts| - 1] == y && sts[|sts| - 1] == st
  {
    hide Apply, Init;
    var zs, more :| EndsIn(hf, p, zs, more, y);
    OneStep(hf, p, y, st);
    PathConcat(hf, p, zs, more, [y, Apply(hf, y, st)], [st]);
    ys, sts := zs + [y, Apply(hf, y, st)][1..], more + [st];
  }

  lemma {:induction false} IngestReleases(hf: HashFn, s: ServerState, es: seq<Event>)
    ensures IngestEvents(hf, s, es).respBuffer.Keys <= s.respBuffer.Keys
    decreases |es|
  {
    if es != [] {
      IngestReleases(hf, IngestEvent(hf, s, es[0]), es[1..]);
    }
  }

  lemma {:induction false} IngestCallsNothing(hf: HashFn, s: ServerState, es: seq<Event>)
    ensures IngestEvents(hf, s, es).calls == s.calls
    decreases |es|
  {
    if es != [] {
      IngestCallsNothing(hf, IngestEvent(hf, s, es[0]), es[1..]);
    }
  }

  lemma RecoveredCalls(hf: HashFn, s: ServerState, c: ClientState)
    ensures Recovered(hf, s, c).calls == s.calls
  {
    IngestCallsNothing(hf, s, EventsOf(Unheld(s, BuildReplay(c, s.history.EventCount()))));
  }

  lemma RecoveredBuffers(hf: HashFn, s: ServerState, c: ClientState)
    ensures Recovered(hf, s, c).respBuffer.Keys <= s.respBuffer.Keys
  {
    IngestReleases(hf, s, EventsOf(Unheld(s, BuildReplay(c, s.history.EventCount()))));
  }

  /** A crash back to the start and the recovery that an outstanding request brings about: what the
      client has no answer to is awaited. */
  lemma RecoveredAwaits(hf: HashFn, p: Policy, y: System, id: SeqNum, app: AppFn) returns (z: System)
    requires !p.crashFree && p.quiescent && Reachable(hf, p, y) && 1 <= id <= |y.frozen|
    requires y.frozen[id - 1].ackBase > 1
    ensures Reachable(hf, p, z) && z.client == y.client && z.frozen == y.frozen && z.responses == y.responses
    ensures z.server.committedUpto == |z.frozen| && z.server.respBuffer == map[]
    ensures forall i :: i in z.client.inflight ==> i in z.server.awaiting
    ensures 0 in z.signals && z.server.calls == []
  {
    hide Reachable, Good, NeedsRecover, Recovered, Agreement, Path, Apply;
    CrashReachable(hf, p, y);
    var x := Apply(hf, y, Crash(EmptyCheckpoint(hf)));
    BaseAhead(x.server, x.frozen[id - 1]);
    var ys, sts := RecoverPath(hf, p, x, id, app);
    PathEnds(hf, p, ys, sts);
    PathReachable(hf, p, ys, sts);
    z := ys[3];
    RecoveredBuffers(hf, x.server, x.client);
    RecoveredCalls(hf, x.server, x.client);
    ReachableAgrees(hf, p, x);
    AgreedRecovery(hf, x, id, app);
    ReachableGood(hf, p, z);
    CoveredAwaits(hf, p, z);
  }

  lemma BaseAhead(s: ServerState, req: Request)
    requires s.committedUpto == 0 && req.ackBase > 1
    ensures NeedsRecover(s, req)
  {
  }

  lemma AgreedRecovery(hf: HashFn, y: System, id: SeqNum, app: AppFn)
    requires Agreement(hf, y) && 1 <= id <= |y.frozen|
    ensures Recovered(hf, y.server, y.client).committedUpto == |y.frozen|
  {
    hide FrozenOk, ClientOk, ServerOk, MessagesOk, Recovered;
    OneShotRecovery(hf, y.client, y.server, y.frozen, id, app);
  }

  lemma CoveredAwaits(hf: HashFn, p: Policy, y: System)
    requires Good(hf, p, y) && y.server.committedUpto == |y.frozen| && y.server.respBuffer == map[]
    ensures forall i :: i in y.client.inflight ==> i in y.server.awaiting
  {
    hide FrozenOk, ClientHistoryOk, ServerOk, MessagesOk, AcksOk;
  }

  /** So it happens, with a window of one, once checkpoints are not quiescent. */
  lemma LostAnswerRun(hf: HashFn, app: AppFn) returns (ys: seq<System>, sts: seq<Step>)
    ensures Run(hf, Policy(1, false, false), ys, sts) && Silenced(ys, sts, |sts|, 2)
  {
    hide Reachable, Apply, Agreement;
    var pc, p, q := Policy(1, true, true), Policy(1, false, true), Policy(1, false, false);
    InitReachable(hf, pc, true, true);
    var a := Exchange(hf, pc, Init(hf, true, true), app);
    var b := Asked(hf, pc, a, "");
    ReachableAgrees(hf, pc, a);
    AllReceived(hf, a);
    Loosen(hf, pc, p, b);
    var z := RecoveredAwaits(hf, p, b, 2, app);
    Loosen(hf, p, q, z);
    ReachableAgrees(hf, p, z);
    NotReceived(hf, z, 2);
    ys, sts := AwaitedIsLost(hf, q, z, 2, app);
  }

  lemma NotReceived(hf: HashFn, y: System, id: SeqNum)
    requires Agreement(hf, y) && id in y.client.inflight
    ensures id !in y.client.received
  {
    hide FrozenOk, ClientHistoryOk, ServerOk, MessagesOk;
  }

  // ---- a drained conversation that fails its check ----

  /** From any reachable state with nothing outstanding and something generated, one crash back to
      the start leaves nothing outstanding and a check that fails. */
  lemma DrainedFails(hf: HashFn, p: Policy, y: System) returns (z: System)
    requires Reachable(hf, p, y) && !p.crashFree && y.client.inflight == map[] && |y.frozen| > 0
    ensures Reachable(hf, p, z) && z.client == y.client && z.server.committedUpto == 0
    ensures !LivenessHolds(z.client, z.server)
  {
    hide Reachable, Apply;
    CrashReachable(hf, p, y);
    z := Apply(hf, y, Crash(EmptyCheckpoint(hf)));
    ReachableAgrees(hf, p, y);
  }

  /** So it happens after one answered request. */
  lemma DrainedFailsRun(hf: HashFn, app: AppFn) returns (z: System)
    ensures Reachable(hf, Policy(1, false, true), z) && z.client.inflight == map[] && z.client.pendingNew == [1]
    ensures z.server.committedUpto == 0 && !LivenessHolds(z.client, z.server)
  {
    hide Reachable, LivenessHolds;
    var pc, p := Policy(1, true, true), Policy(1, false, true);
    InitReachable(hf, pc, true, true);
    var a := Exchange(hf, pc, Init(hf, true, true), app);
    Loosen(hf, pc, p, a);
    z := DrainedFails(hf, p, a);
  }

  // ---- staging without bound ----

  /** Delivering an outstanding request at the frontier commits it and sends its answer. */
  lemma Committed(hf: HashFn, p: Policy, y: System, id: SeqNum, app: AppFn) returns (z: System, r: Response)
    requires p.quiescent && Reachable(hf, p, y) && 1 <= id <= |y.frozen|
    requires id in y.client.inflight && id <= y.server.committedUpto + 1 && !NeedsRecover(y.server, y.frozen[id - 1])
    ensures Reachable(hf, p, z) && z == Apply(hf, y, DeliverRequest(id, app))
    ensures z == y.(server := z.server, responses := z.responses, signals := z.signals) && y.signals <= z.signals
    ensures z.server.committedUpto >= id && z.server.committedUpto >= y.server.committedUpto
    ensures r in z.responses && IsAnswer(r, id) && y.responses <= z.responses
  {
    hide Reachable, OnRequest, NeedsRecover, Agreement, IsAnswer, AcksOk;
    ReachableGood(hf, p, y);
    OutstandingGenerated(hf, y, id);
    StepReachable(hf, p, y, DeliverRequest(id, app));
    z := Apply(hf, y, DeliverRequest(id, app));
    FrontierAnswers(hf, y, id, app);
    var out := OnRequest(hf, y.server, y.frozen[id - 1], app).out;
    var k :| 0 <= k < |out| && IsAnswer(out[k], id);
    r := out[k];
    OrdinaryAnswer(r, id);
  }

  lemma OrdinaryAnswer(r: Response, id: SeqNum)
    requires IsAnswer(r, id)
    ensures !r.recover
  {
  }

  lemma OutstandingGenerated(hf: HashFn, y: System, id: SeqNum)
    requires Agreement(hf, y) && id in y.client.inflight
    ensures 1 <= id <= |y.frozen| && id !in y.client.received
  {
    hide FrozenOk, ClientHistoryOk, ServerOk, MessagesOk;
  }

  /** The first request committed and unanswered; after it pairs, the second of each acknowledging
      nothing, all answered. */
  ghost predicate Lopsided(y: System, n: nat) {
    && |y.frozen| == 2 * n + 1 == y.server.committedUpto && y.client.inflight.Keys == {1}
    && (forall k :: 0 <= k < |y.frozen| ==> y.frozen[k].ackBase == 1)
    && (forall j {:trigger y.frozen[2 * j]} :: 0 <= j <= n ==> y.frozen[2 * j].ackNew == [])
  }

  lemma FirstMissing(hf: HashFn, p: Policy, y: System, payload: string)
    requires Reachable(hf, p, y) && (1 in y.client.inflight || |y.frozen| == 0)
    ensures
      var r := FrozenRequest(hf, y.client, payload);
      r.ackBase == 1 && r.ackNew == y.client.pendingNew
  {
    hide Reachable, AppendAll, ServerOk, MessagesOk, FrozenOk;
    ReachableAgrees(hf, p, y);
    assert y.client.base > 1 ==> 1 in y.client.received;
  }

  lemma LopsidedStart(hf: HashFn, p: Policy, app: AppFn) returns (y: System)
    requires p.crashFree && p.quiescent && p.window >= 3
    ensures Reachable(hf, p, y) && Lopsided(y, 0)
  {
    hide Reachable, Apply, FrozenRequest, Agreement, IsAnswer;
    InitReachable(hf, p, true, true);
    var x := Init(hf, true, true);
    FirstMissing(hf, p, x, "");
    var a := Asked(hf, p, x, "");
    ReachableSteady(hf, p, a);
    var r;
    SteadyOutstanding(hf, p, a, 1);
    y, r := Committed(hf, p, a, 1, app);
    FrontierGenerated(hf, p, y);
  }

  lemma LopsidedNext(hf: HashFn, p: Policy, y: System, n: nat, app: AppFn) returns (z: System)
    requires p.crashFree && p.quiescent && p.window >= 3 && Reachable(hf, p, y) && Lopsided(y, n)
    ensures Reachable(hf, p, z) && Lopsided(z, n + 1)
  {
    hide Reachable, Apply, FrozenRequest;
    FirstMissing(hf, p, y, "");
    assert |y.client.inflight.Keys| == 1;
    var a := Asked(hf, p, y, "");
    assert a.client.inflight.Keys == {1, 2 * n + 2};
    assert |a.client.inflight.Keys| == 2;
    FirstMissing(hf, p, a, "");
    var b := Asked(hf, p, a, "");
    var c := Answered(hf, p, b, 2 * n + 2, app);
    z := Answered(hf, p, c, 2 * n + 3, app);
    FrontierGenerated(hf, p, z);
    assert z.client.inflight.Keys == {1};
    assert z.frozen == y.frozen + [z.frozen[2 * n + 1], z.frozen[2 * n + 2]];
    forall j {:trigger z.frozen[2 * j]} | 0 <= j <= n + 1 ensures z.frozen[2 * j].ackNew == [] {
      if j <= n {
        assert z.frozen[2 * j] == y.frozen[2 * j];
      }
    }
  }

  lemma {:induction false} LopsidedRun(hf: HashFn, p: Policy, n: nat, app: AppFn) returns (y: System)
    requires p.crashFree && p.quiescent && p.window >= 3
    ensures Reachable(hf, p, y) && Lopsided(y, n)
  {
    hide Reachable, Lopsided;
    if n == 0 {
      y := LopsidedStart(hf, p, app);
    } else {
      var x := LopsidedRun(hf, p, n - 1, app);
      y := LopsidedNext(hf, p, x, n - 1, app);
    }
  }

  ghost function Odds(m: nat): (s: set<SeqNum>)
    ensures |s| == m && forall k :: k in s ==> 3 <= k <= 2 * m + 1
  {
    if m == 0 then {} else Odds(m - 1) + {2 * m + 1}
  }

  /** Late copies of the second of each pair, delivered to a server that lost everything. */
  lemma {:induction false} StagesOdds(hf: HashFn, p: Policy, y: System, n: nat, m: nat, app: AppFn) returns (z: System)
    requires Reachable(hf, p, y) && m <= n && |y.frozen| == 2 * n + 1
    requires forall k :: 0 <= k < |y.frozen| ==> y.frozen[k].ackBase == 1
    requires forall j {:trigger y.frozen[2 * j]} :: 0 <= j <= n ==> y.frozen[2 * j].ackNew == []
    requires y.server.committedUpto == 0 && y.server.pendingReqs == map[]
    ensures Reachable(hf, p, z) && z.client == y.client && z.frozen == y.frozen
    ensures z.server.committedUpto == 0 && z.server.pendingReqs.Keys == Odds(m) && z.server.maxPending >= m
  {
    hide Reachable, OnRequest, Agreement;
    if m == 0 {
      z := y;
    } else {
      var x := StagesOdds(hf, p, y, n, m - 1, app);
      var id := 2 * m + 1;
      assert x.frozen[2 * m].ackNew == [];
      ReachableAgrees(hf, p, x);
      AgreedId(hf, x, id);
      StagesOne(hf, x.server, x.frozen[2 * m], app);
      StepReachable(hf, p, x, DeliverRequest(id, app));
      z := Apply(hf, x, DeliverRequest(id, app));
      assert z.server.pendingReqs.Keys == Odds(m);
      assert |z.server.pendingReqs.Keys| == m;
    }
  }

  lemma AgreedId(hf: HashFn, y: System, id: SeqNum)
    requires Agreement(hf, y) && 1 <= id <= |y.frozen|
    ensures y.frozen[id - 1].id == id
  {
    hide ClientOk, ServerOk, MessagesOk, HashAt;
    assert RequestOk(hf, y.frozen, id - 1, y.client.received);
  }

  /** With a window of three or more and one crash, any number of requests can be staged above the
      frontier while one is outstanding, so no bound on staging passes the check. */
  lemma StagingUnbounded(hf: HashFn, w: nat, n: nat, app: AppFn) returns (y: System)
    requires w >= 3
    ensures Reachable(hf, Policy(w, false, true), y) && |y.client.inflight| == 1
    ensures |Live(y.server)| == n && y.server.maxPending >= n
    ensures forall bound: nat :: bound < n ==> !BoundsHold(y.client, y.server, bound)
  {
    hide Reachable, Apply;
    var pc, p := Policy(w, true, true), Policy(w, false, true);
    var a := LopsidedRun(hf, pc, n, app);
    Loosen(hf, pc, p, a);
    CrashReachable(hf, p, a);
    var b := Apply(hf, a, Crash(EmptyCheckpoint(hf)));
    y := StagesOdds(hf, p, b, n, n, app);
    assert Live(y.server) == Odds(n);
    assert |y.client.inflight.Keys| == 1;
  }

  // ---- a buffer over the window ----

  lemma {:induction false} CommitLoopAwaits(hf: HashFn, s: ServerState, app: AppFn)
    ensures CommitLoop(hf, s, app).state.awaiting == s.awaiting
    decreases |s.pendingReqs|
  {
    if s.committedUpto + 1 in s.pendingReqs {
      CommitLoopAwaits(hf, CommitNext(hf, s, app), app);
    }
  }

  /** `release_acked` does not clear what awaits; only answering does. */
  lemma StillAwaits(hf: HashFn, s: ServerState, req: Request, app: AppFn)
    ensures
      var t := OnRequest(hf, s, req, app).state;
      t.awaiting <= s.awaiting && forall i :: i in s.awaiting && i != req.id ==> i in t.awaiting
  {
    hide CommitLoop;
    CommitLoopAwaits(hf, Stage(Release(s, req), req), app);
  }

  /** A request that awaits is answered into the buffer, beside all it does not acknowledge. */
  lemma AnswersBeside(hf: HashFn, s: ServerState, req: Request, app: AppFn)
    requires req.id <= s.committedUpto && req.id in s.awaiting && req.id !in s.respBuffer && !NeedsRecover(s, req)
    ensures
      var t := OnRequest(hf, s, req, app).state;
      && req.id in t.respBuffer && t.maxRespBuffer >= |t.respBuffer|
      && forall i :: i in s.respBuffer && i >= req.ackBase && i !in req.ackNew ==> i in t.respBuffer
  {
  }

  lemma Received(hf: HashFn, p: Policy, y: System, r: Response, id: SeqNum) returns (z: System)
    requires Reachable(hf, p, y) && r in y.responses && IsAnswer(r, id) && id in y.client.inflight
    ensures Reachable(hf, p, z) && z == y.(client := z.client)
    ensures z.client.inflight == y.client.inflight - {id} && z.client.pendingNew == y.client.pendingNew + [id]
  {
    hide Reachable, Agreement, AdvanceBase;
    ReachableAgrees(hf, p, y);
    OutstandingGenerated(hf, y, id);
    StepReachable(hf, p, y, DeliverResponse(r));
    z := Apply(hf, y, DeliverResponse(r));
  }

  lemma Placed(s: ServerState, req: Request)
    requires req.ackBase <= s.committedUpto + 1 && forall i :: i in req.ackNew ==> i <= s.committedUpto
    ensures !NeedsRecover(s, req)
  {
    assert forall k :: 0 <= k < |req.ackNew| ==> req.ackNew[k] in req.ackNew;
  }

  /** What the server committed last is buffered. */
  lemma FreshIsBuffered(hf: HashFn, p: Policy, y: System, id: SeqNum)
    requires Good(hf, p, y) && id in y.client.inflight && id <= y.server.committedUpto && id !in y.server.awaiting
    ensures id in y.server.respBuffer
  {
    hide FrozenOk, ClientHistoryOk, ServerOk, MessagesOk, AcksOk;
  }

  lemma AwaitsCommitted(hf: HashFn, y: System)
    requires Agreement(hf, y)
    ensures forall i :: i in y.server.awaiting ==> i <= y.server.committedUpto && i !in y.server.respBuffer
  {
    hide FrozenOk, ClientOk, HistoryOk, OnceOk, MessagesOk;
  }

  lemma HandledServer(hf: HashFn, y: System, id: SeqNum, app: AppFn)
    requires 1 <= id <= |y.frozen|
    ensures
      var z := Apply(hf, y, DeliverRequest(id, app));
      z.server == OnRequest(hf, y.server, y.frozen[id - 1], app).state && z.client == y.client
  {
    hide OnRequest;
  }

  lemma NewestPlaced(hf: HashFn, y: System)
    requires Agreement(hf, y) && y.server.committedUpto + 1 == |y.frozen|
    ensures !NeedsRecover(y.server, y.frozen[|y.frozen| - 1])
  {
    hide ClientOk, ServerOk, MessagesOk, NeedsRecover, HashAt;
    assert RequestOk(hf, y.frozen, |y.frozen| - 1, y.client.received);
    Placed(y.server, y.frozen[|y.frozen| - 1]);
  }

  /** Request 2 was answered by a server that crashed before the answer arrived; the next server
      awaits it though the client has the answer by now. After it, j requests committed and
      unanswered. */
  ghost predicate Overdue(y: System, j: nat) {
    && |y.frozen| == j + 2 == y.server.committedUpto && |y.client.inflight| == j
    && (forall i :: i in y.client.inflight ==> 3 <= i <= j + 2)
    && y.frozen[1].ackBase == 2 && y.frozen[1].ackNew == [1]
    && 2 in y.server.awaiting && forall i :: i in y.server.awaiting ==> i <= 2
  }

  lemma OverdueStart(hf: HashFn, w: nat, app: AppFn) returns (y: System)
    requires w >= 1
    ensures Reachable(hf, Policy(w, false, true), y) && Overdue(y, 0)
  {
    hide Reachable, Apply, FrozenRequest, Agreement, IsAnswer, NeedsRecover, Good, Steady;
    var pc, p := Policy(w, true, true), Policy(w, false, true);
    InitReachable(hf, pc, true, true);
    var a := Exchange(hf, pc, Init(hf, true, true), app);
    ReachableAgrees(hf, pc, a);
    AllReceived(hf, a);
    var b := Asked(hf, pc, a, "");
    ReachableSteady(hf, pc, b);
    SteadyOutstanding(hf, pc, b, 2);
    var c, r := Committed(hf, pc, b, 2, app);
    Loosen(hf, pc, p, c);
    var d := RecoveredAwaits(hf, p, c, 2, app);
    y := Received(hf, p, d, r, 2);
    assert y.client.inflight.Keys == {};
    ReachableAgrees(hf, p, y);
    AwaitsCommitted(hf, y);
  }

  lemma OverdueNext(hf: HashFn, p: Policy, y: System, j: nat, app: AppFn) returns (z: System)
    requires p.quiescent && Reachable(hf, p, y) && Overdue(y, j) && j < p.window
    ensures Reachable(hf, p, z) && Overdue(z, j + 1)
  {
    hide Reachable, Apply, FrozenRequest, Agreement, IsAnswer, NeedsRecover, OnRequest;
    var a := Asked(hf, p, y, "");
    var id := j + 3;
    assert id !in y.client.inflight.Keys;
    assert |a.client.inflight.Keys| == j + 1;
    ReachableAgrees(hf, p, a);
    AgreedId(hf, a, id);
    NewestPlaced(hf, a);
    var r;
    z, r := Committed(hf, p, a, id, app);
    HandledServer(hf, a, id, app);
    StillAwaits(hf, a.server, a.frozen[id - 1], app);
    FrontierGenerated(hf, p, z);
  }

  lemma {:induction false} OverdueRun(hf: HashFn, w: nat, j: nat, app: AppFn) returns (y: System)
    requires w >= 1 && j <= w
    ensures Reachable(hf, Policy(w, false, true), y) && Overdue(y, j)
  {
    hide Reachable, Overdue;
    if j == 0 {
      y := OverdueStart(hf, w, app);
    } else {
      var x := OverdueRun(hf, w, j - 1, app);
      y := OverdueNext(hf, Policy(w, false, true), x, j - 1, app);
    }
  }

  /** For every window, a late copy of an acknowledged request that the server still awaits puts
      one response more than the window into the buffer. */
  lemma BufferOverRun(hf: HashFn, w: nat, app: AppFn) returns (z: System)
    requires w >= 1
    ensures Reachable(hf, Policy(w, false, true), z)
    ensures |z.server.respBuffer| > w && z.server.maxRespBuffer > w && !BoundsHold(z.client, z.server, w)
  {
    hide Reachable, Agreement, NeedsRecover, OnRequest, Good;
    var p := Policy(w, false, true);
    var y := OverdueRun(hf, w, w, app);
    ReachableGood(hf, p, y);
    ReachableAgrees(hf, p, y);
    AwaitsCommitted(hf, y);
    forall i | i in y.client.inflight ensures i in y.server.respBuffer {
      FreshIsBuffered(hf, p, y, i);
    }
    AgreedId(hf, y, 2);
    Placed(y.server, y.frozen[1]);
    AnswersBeside(hf, y.server, y.frozen[1], app);
    StepReachable(hf, p, y, DeliverRequest(2, app));
    z := Apply(hf, y, DeliverRequest(2, app));
    assert 2 !in y.client.inflight.Keys;
    assert |y.client.inflight.Keys + {2}| == w + 1;
    SubsetSize(y.client.inflight.Keys + {2}, z.server.respBuffer.Keys);
  }
}
