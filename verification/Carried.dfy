/** What requests, answers and replays carry: hashes whenever they are meant to be sent, the payloads
    that were delivered; and that a hash which disagrees is counted. */
module Carried {
  import opened Messages
  import opened History
  import opened Canon
  import opened Client
  import opened Server
  import opened Protocol
  import opened Safety
  import opened Runs
  import opened Restoration
  import opened Acknowledgements
  import opened Replies

  // ---- what a request is frozen with ----

  /** The request generated at this step of a run: the next id, the first id not received, all that
      was received since the last, the payload, and the hash of its own cut if hashes are sent. */
  lemma GeneratedRequest(hf: HashFn, p: Policy, ys: seq<System>, sts: seq<Step>, k: nat)
    requires Run(hf, p, ys, sts) && k < |sts| && sts[k].Generate?
    ensures
      var c, n := ys[k].client, |ys[k].frozen|;
      var frozen := ys[k + 1].frozen;
      && |frozen| == n + 1 && frozen[..n] == ys[k].frozen
      && var r := frozen[n];
      && r.id == n + 1 && r.payload == sts[k].payload && r.ackNew == c.pendingNew
      && r.ackBase !in c.received && (forall i :: 1 <= i < r.ackBase ==> i in c.received)
      && r.hash == (if c.setHash then Some(HashAt(hf, frozen, n + 1)) else None)
      && ys[k + 1].client.sent == c.sent + 1
  {
    hide ServerOk, MessagesOk, FrozenOk, Init, Cut, AppendAll, HashAt, Represents;
    RunAgrees(hf, p, ys, sts, k);
    assert Enabled(p, ys[k], sts[k]);
    GeneratedHash(hf, ys[k], sts[k].payload);
  }

  lemma GeneratedHash(hf: HashFn, y: System, payload: string)
    requires ClientHistoryOk(hf, y.client, y.frozen)
    ensures
      var r := FrozenRequest(hf, y.client, payload);
      r.hash == if y.client.setHash then Some(HashAt(hf, y.frozen + [r], |y.frozen| + 1)) else None
  {
    hide Cut, AppendAll;
    GenerateExtendsCut(hf, y.client, y.frozen, payload);
  }

  /** The high-water mark of the acknowledgement lists: as long as the longest, and no longer. */
  ghost predicate LongestAcks(y: System) {
    && (forall k :: 0 <= k < |y.frozen| ==> |y.frozen[k].ackNew| <= y.client.maxAckNew)
    && (y.client.maxAckNew == 0 || exists k :: 0 <= k < |y.frozen| && |y.frozen[k].ackNew| == y.client.maxAckNew)
  }

  lemma GenerateLongest(hf: HashFn, y: System, payload: string)
    requires LongestAcks(y)
    ensures LongestAcks(Apply(hf, y, Generate(payload)))
  {
    hide AppendAll, FrozenRequest;
    var z := Apply(hf, y, Generate(payload));
    var n := |y.frozen|;
    assert z.frozen[..n] == y.frozen && z.client.maxAckNew == Max(y.client.maxAckNew, |z.frozen[n].ackNew|);
    if z.client.maxAckNew == y.client.maxAckNew != 0 {
      var k :| 0 <= k < n && |y.frozen[k].ackNew| == y.client.maxAckNew;
      assert z.frozen[k] == y.frozen[k];
    }
  }

  lemma {:induction false} MarkIsLongest(hf: HashFn, p: Policy, ys: seq<System>, sts: seq<Step>, k: nat)
    requires Run(hf, p, ys, sts) && k <= |sts|
    ensures LongestAcks(ys[k])
  {
    hide OnRequest, Restore, Ingest, AdvanceBase, GenerateRequest, FrozenRequest, BuildReplay, LongestAcks;
    if k > 0 {
      MarkIsLongest(hf, p, ys, sts, k - 1);
      assert Enabled(p, ys[k - 1], sts[k - 1]);
      match sts[k - 1]
      case Generate(payload) => GenerateLongest(hf, ys[k - 1], payload);
      case _ => LongestKept(ys[k - 1], ys[k]);
    } else {
      InitLongest(ys[0]);
    }
  }

  lemma LongestKept(y: System, z: System)
    requires LongestAcks(y) && z.frozen == y.frozen && z.client.maxAckNew == y.client.maxAckNew
    ensures LongestAcks(z)
  {
  }

  lemma InitLongest(y: System)
    requires y.frozen == [] && y.client.maxAckNew == 0
    ensures LongestAcks(y)
  {
  }

  // ---- hashes ----

  ghost predicate HashesSent(hf: HashFn, y: System) {
    && (forall k :: 0 <= k < |y.frozen| ==>
          y.frozen[k].hash == if y.client.setHash then Some(HashAt(hf, y.frozen, k + 1)) else None)
    && (forall r :: r in y.responses && !r.noOp ==>
          && 1 <= r.id <= |y.frozen|
          && r.hash == if y.server.setHash then Some(HashAt(hf, y.frozen, r.id)) else None)
    && y.client.sent == |y.frozen|
  }

  lemma GenerateHashes(hf: HashFn, y: System, payload: string)
    requires Agreement(hf, y) && HashesSent(hf, y)
    ensures HashesSent(hf, Apply(hf, y, Generate(payload)))
  {
    hide Cut, AppendAll, HashAt, ServerOk, MessagesOk, FrozenOk, Represents;
    var r := FrozenRequest(hf, y.client, payload);
    GeneratedHash(hf, y, payload);
    Stable(hf, y.frozen, y.frozen + [r]);
  }

  /** A real answer of this delivery carries the hash of its own cut. */
  lemma DeliveryHashes(hf: HashFn, y: System, id: SeqNum, app: AppFn, r: Response)
    requires Agreement(hf, y) && 1 <= id <= |y.frozen|
    requires r in OnRequest(hf, y.server, y.frozen[id - 1], app).out && !r.noOp && !r.recover
    ensures 1 <= r.id <= |y.frozen|
    ensures r.hash == if y.server.setHash then Some(HashAt(hf, y.frozen, r.id)) else None
  {
    hide OnRequest, NeedsRecover, Served, ClientOk, MessagesOk, HistoryOk, OnceOk, HashAt;
    var s, req := y.server, y.frozen[id - 1];
    var res := OnRequest(hf, s, req, app);
    ReachedKeyed(hf, y);
    DeliveryReplies(hf, s, req, app);
    OnRequestOk(hf, s, y.frozen, y.client.received, id, app);
    if req.id > s.committedUpto {
      PlacedHashes(hf, y, id, app, r);
    }
  }

  lemma ReachedKeyed(hf: HashFn, y: System)
    requires Agreement(hf, y)
    ensures Keyed(y.server)
  {
    hide ClientOk, MessagesOk, HistoryOk, OnceOk, HashAt;
    forall i | i in y.server.pendingReqs ensures y.server.pendingReqs[i].id == i {
      assert RequestOk(hf, y.frozen, i - 1, y.client.received);
    }
  }

  lemma PlacedHashes(hf: HashFn, y: System, id: SeqNum, app: AppFn, r: Response)
    requires Agreement(hf, y) && 1 <= id <= |y.frozen| && y.frozen[id - 1].id > y.server.committedUpto
    requires !NeedsRecover(y.server, y.frozen[id - 1])
    requires r in OnRequest(hf, y.server, y.frozen[id - 1], app).out
    ensures 1 <= r.id <= |y.frozen|
    ensures r.hash == if y.server.setHash then Some(HashAt(hf, y.frozen, r.id)) else None
  {
    hide OnRequest, NeedsRecover, ClientOk, MessagesOk, HistoryOk, OnceOk, HashAt, Ran;
    var s, req := y.server, y.frozen[id - 1];
    var res := OnRequest(hf, s, req, app);
    ReachedKeyed(hf, y);
    PlacedReplies(hf, s, req, app);
    OnRequestOk(hf, s, y.frozen, y.client.received, id, app);
    var j :| 0 <= j < |res.out| && res.out[j] == r;
    assert ServedAt(s, res.state, res.out, app, j);
  }

  lemma DeliverHashes(hf: HashFn, y: System, id: SeqNum, app: AppFn)
    requires Agreement(hf, y) && HashesSent(hf, y) && 1 <= id <= |y.frozen|
    ensures HashesSent(hf, Apply(hf, y, DeliverRequest(id, app)))
  {
    hide Agreement, OnRequest, HashAt;
    var res := OnRequest(hf, y.server, y.frozen[id - 1], app);
    KeepsSetting(hf, y.server, y.frozen[id - 1], app);
    forall r | r in res.out && !r.noOp && !r.recover
      ensures 1 <= r.id <= |y.frozen|
      ensures r.hash == if y.server.setHash then Some(HashAt(hf, y.frozen, r.id)) else None
    {
      DeliveryHashes(hf, y, id, app, r);
    }
  }

  lemma {:induction false} LoopSetting(hf: HashFn, s: ServerState, app: AppFn)
    ensures CommitLoop(hf, s, app).state.setHash == s.setHash
    decreases |s.pendingReqs|
  {
    if s.committedUpto + 1 in s.pendingReqs {
      LoopSetting(hf, CommitNext(hf, s, app), app);
    }
  }

  lemma KeepsSetting(hf: HashFn, s: ServerState, req: Request, app: AppFn)
    ensures OnRequest(hf, s, req, app).state.setHash == s.setHash
  {
    hide CommitLoop;
    LoopSetting(hf, Stage(Release(s, req), req), app);
  }

  lemma {:induction false} IngestSetting(hf: HashFn, s: ServerState, es: seq<Event>)
    ensures IngestEvents(hf, s, es).setHash == s.setHash
    decreases |es|
  {
    if es != [] {
      IngestSetting(hf, IngestEvent(hf, s, es[0]), es[1..]);
    }
  }

  lemma RestoreSetting(cp: Checkpoint, setHash: bool)
    ensures Restore(cp, setHash).setHash == setHash
  {
    hide RestoreBuffer;
    RestoreOnlyFills(
      ServerState(setHash, cp.committedUpto, map[], map[], map[], {}, map[],
                  Resumed(cp.historyHash, cp.eventCount), 0, 0, 0, []), cp.buffer);
  }

  lemma StepHashes(hf: HashFn, p: Policy, y: System, st: Step)
    requires Agreement(hf, y) && HashesSent(hf, y) && Enabled(p, y, st)
    ensures HashesSent(hf, Apply(hf, y, st))
  {
    hide Agreement, OnRequest, Restore, HashAt, AdvanceBase, GenerateRequest, FrozenRequest;
    match st
    case Generate(payload) => GenerateHashes(hf, y, payload);
    case DeliverRequest(id, app) => DeliverHashes(hf, y, id, app);
    case IngestReplay(b) => IngestSetting(hf, y.server, EventsOf(Unheld(y.server, b.replay)));
    case Crash(cp) => RestoreSetting(cp, y.server.setHash);
    case _ =>
  }

  /** In every run, when hashes are sent, every request ever generated and every real answer ever sent
      carries the hash of its own cut; when they are not, none does. */
  lemma {:induction false} HashesCarried(hf: HashFn, p: Policy, ys: seq<System>, sts: seq<Step>, k: nat)
    requires Run(hf, p, ys, sts) && k <= |sts|
    ensures HashesSent(hf, ys[k])
  {
    hide Agreement, Apply, Enabled, HashAt;
    if k > 0 {
      HashesCarried(hf, p, ys, sts, k - 1);
      RunAgrees(hf, p, ys, sts, k - 1);
      assert Enabled(p, ys[k - 1], sts[k - 1]);
      StepHashes(hf, p, ys[k - 1], sts[k - 1]);
    }
  }

  // ---- a hash that disagrees is counted ----

  /** A request committed at the frontier is compared with the hash its own acknowledgements and
      itself lead to, whatever hash it carries; it is counted exactly when both sides send hashes
      and the two differ. */
  lemma ServerCounts(hf: HashFn, s: ServerState, log: seq<Event>, req: Request, app: AppFn)
    requires Represents(hf, s.history, log) && !NeedsRecover(s, req)
    requires req.id == s.committedUpto + 1 && req.id + 1 !in s.pendingReqs
    ensures
      var t := OnRequest(hf, s, req, app).state;
      var h := Chain(hf, log + AckEvents(req.ackNew) + [Event(false, req.id)]);
      t.mismatches == s.mismatches + if s.setHash && req.hash.Some? && req.hash.value != h then 1 else 0
  {
    hide CommitLoop, CommitNext, NeedsRecover, Chain, AppendAll, Represents, Released, AckEvents;
    var s1 := Stage(Release(s, req), req);
    CommitLoopTurn(hf, s1, app, []);
    CommitCounts(hf, s1, log, app);
    CommitLoopStop(hf, CommitNext(hf, s1, app), app);
    assert log + (AckEvents(req.ackNew) + [Event(false, req.id)])
      == log + AckEvents(req.ackNew) + [Event(false, req.id)];
  }

  lemma CommitCounts(hf: HashFn, s: ServerState, log: seq<Event>, app: AppFn)
    requires Represents(hf, s.history, log) && s.committedUpto + 1 in s.pendingReqs
    ensures
      var r, t := s.pendingReqs[s.committedUpto + 1], CommitNext(hf, s, app);
      var h := Chain(hf, log + (AckEvents(r.ackNew) + [Event(false, r.id)]));
      && t.mismatches == s.mismatches + (if s.setHash && r.hash.Some? && r.hash.value != h then 1 else 0)
      && t.committedUpto == r.id && t.pendingReqs == s.pendingReqs - {s.committedUpto + 1}
  {
    hide AppendAll, Chain;
    var r := s.pendingReqs[s.committedUpto + 1];
    AppendAllRepresents(hf, s.history, log, Block(r));
  }

  /** A first response is counted exactly when both sides send hashes and it carries another than the
      one its request was frozen with. */
  lemma ClientCounts(c: ClientState, resp: Response)
    ensures
      var differs := c.setHash && resp.hash.Some? && resp.id in c.reqHash && resp.hash.value != c.reqHash[resp.id];
      OnResponse(c, resp).mismatches == c.mismatches + if resp.id !in c.received && differs then 1 else 0
  {
    hide AdvanceBase;
  }

  // ---- what is kept for replay ----

  /** Exactly the delivered payloads are kept, each under its id. */
  ghost predicate PayloadsKept(c: ClientState) {
    && (forall d :: d in c.delivered ==> d.id in c.receivedPayload && c.receivedPayload[d.id] == d.payload)
    && (forall i :: i in c.receivedPayload ==> i in Ids(c.delivered))
  }

  lemma ReceiveKeeps(y: System, r: Response)
    requires AcksLogged(y) && PayloadsKept(y.client)
    ensures PayloadsKept(OnResponse(y.client, r))
  {
    hide AdvanceBase, Distinct;
    var c, d := y.client, OnResponse(y.client, r);
    if r.id !in c.received && !r.noOp {
      forall x | x in c.delivered ensures x.id != r.id {
        var j :| 0 <= j < |c.delivered| && c.delivered[j] == x;
        assert Ids(c.delivered)[j] == x.id;
        assert x.id in Receipts(y);
      }
      assert Ids(d.delivered) == Ids(c.delivered) + [r.id];
    }
  }

  lemma StepKeeps(hf: HashFn, p: Policy, y: System, st: Step)
    requires AcksLogged(y) && PayloadsKept(y.client) && Enabled(p, y, st)
    ensures PayloadsKept(Apply(hf, y, st).client)
  {
    hide AcksLogged, OnRequest, OnResponse, Ingest, Restore, AppendAll;
    match st
    case DeliverResponse(r) => ReceiveKeeps(y, r);
    case _ =>
  }

  lemma {:induction false} RunKeeps(hf: HashFn, p: Policy, ys: seq<System>, sts: seq<Step>, k: nat)
    requires Run(hf, p, ys, sts) && k <= |sts|
    ensures PayloadsKept(ys[k].client)
  {
    hide AcksLogged, Apply, Enabled;
    if k > 0 {
      RunKeeps(hf, p, ys, sts, k - 1);
      RunLogged(hf, p, ys, sts, k - 1);
      assert Enabled(p, ys[k - 1], sts[k - 1]);
      StepKeeps(hf, p, ys[k - 1], sts[k - 1]);
    }
  }

  /** In every run, each response event of a replay the client can build carries the payload it
      delivered for that id and the hash of that id's cut; each request event carries neither. */
  lemma ReplayCarries(hf: HashFn, p: Policy, ys: seq<System>, sts: seq<Step>, k: nat, from: nat, j: nat)
    requires Run(hf, p, ys, sts) && k <= |sts| && j < |BuildReplay(ys[k].client, from).events|
    ensures
      var y := ys[k];
      var e := BuildReplay(y.client, from).events[j];
      if e.isResponse
      then Delivery(e.id, e.payload) in y.client.delivered
        && 1 <= e.id <= |y.frozen| && e.hash == HashAt(hf, y.frozen, e.id)
      else e.payload == "" && e.hash == 0
  {
    hide ServerOk, MessagesOk, FrozenOk, HashAt, Cut, Apply, Enabled, Init, BuildReplay;
    RunAgrees(hf, p, ys, sts, k);
    RunLogged(hf, p, ys, sts, k);
    RunKeeps(hf, p, ys, sts, k);
    var y := ys[k];
    BuiltEvent(y.client, from, j);
    var e := y.client.history.events[from + j];
    if e.isResponse {
      assert e == Event(true, e.id) && e in Cut(y.frozen, |y.frozen|);
      CutResponse(y.frozen, |y.frozen|, e.id);
      DeliveredPayload(y, e.id);
    }
  }

  lemma BuiltEvent(c: ClientState, from: nat, j: nat)
    requires j < |BuildReplay(c, from).events|
    ensures from + j < |c.history.events|
    ensures BuildReplay(c, from).events[j] == ReplayEventAt(c, c.history.events[from + j])
  {
  }

  lemma DeliveredPayload(y: System, i: SeqNum)
    requires AcksLogged(y) && PayloadsKept(y.client) && i in AckLog(y.frozen, |y.frozen|)
    ensures i in y.client.receivedPayload && Delivery(i, y.client.receivedPayload[i]) in y.client.delivered
    ensures i in y.client.received
  {
    hide Distinct;
    assert i in Receipts(y);
    var j :| 0 <= j < |y.client.delivered| && Ids(y.client.delivered)[j] == i;
    var d := y.client.delivered[j];
    assert d in y.client.delivered && d == Delivery(i, y.client.receivedPayload[i]);
  }
}
