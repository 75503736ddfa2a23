/** What the server replies: which responses, with which payload and hash, and what it keeps
    buffered. Every real answer, in any run, is the output of a call of the application. */
module Replies {
  import opened Messages
  import opened History
  import opened Canon
  import opened Client
  import opened Server
  import opened Commits
  import opened Protocol
  import opened Safety
  import opened Runs
  import opened Restoration

  // ---- the replies of the commit loop ----

  /** The call was made with this application. */
  ghost predicate Ran(c: AppCall, app: AppFn) {
    c.output == app(c.id, c.payload, c.seen)
  }

  /** The hash the server has recorded for the id goes with the reply, if hashes are sent. */
  ghost predicate CarriesHash(s: ServerState, r: Response) {
    r.hash == if s.setHash && r.id in s.reqHash then Some(s.reqHash[r.id]) else None
  }

  /** A real answer, that of this call, buffered for retries. */
  ghost predicate Answers(t: ServerState, r: Response, c: AppCall) {
    && r.id == c.id && !r.noOp && !r.recover && r.payload == c.output && CarriesHash(t, r)
    && c.id in t.respBuffer && t.respBuffer[c.id] == c.output
  }

  /** The same at and below c, in the tables that replies come from. */
  ghost predicate SameBelow(s: ServerState, t: ServerState, c: SeqNum) {
    && t.setHash == s.setHash && t.awaiting == s.awaiting
    && (forall i :: i <= c ==> (i in t.respBuffer <==> i in s.respBuffer) && (i in t.reqHash <==> i in s.reqHash))
    && (forall i :: i <= c && i in s.respBuffer ==> t.respBuffer[i] == s.respBuffer[i])
    && (forall i :: i <= c && i in s.reqHash ==> t.reqHash[i] == s.reqHash[i])
  }

  lemma CommitReply(hf: HashFn, s: ServerState, app: AppFn)
    requires Keyed(s) && s.committedUpto + 1 in s.pendingReqs
    ensures
      var t := CommitNext(hf, s, app);
      var id := s.committedUpto + 1;
      && SameBelow(s, t, s.committedUpto) && |t.calls| == |s.calls| + 1 && t.calls[..|s.calls|] == s.calls
      && t.calls[|s.calls|].id == id && Ran(t.calls[|s.calls|], app)
      && Answers(t, MakeResponse(t, id, t.respBuffer[id], false), t.calls[|s.calls|])
  {
    hide AppendAll;
  }

  /** An answer stays what it was while later ids are committed. */
  lemma StillAnswers(s: ServerState, t: ServerState, r: Response, c: AppCall)
    requires Answers(s, r, c) && SameBelow(s, t, c.id)
    ensures Answers(t, r, c)
  {
  }

  lemma SameThrough(s: ServerState, m: ServerState, t: ServerState, c: SeqNum)
    requires SameBelow(s, m, c) && SameBelow(m, t, c + 1)
    ensures SameBelow(s, t, c)
  {
  }

  /** The j-th reply is the answer of the j-th call made since, for the j-th id above the frontier. */
  ghost predicate ServedAt(s: ServerState, t: ServerState, out: seq<Response>, app: AppFn, j: nat)
    requires |t.calls| == |s.calls| + |out| && j < |out|
  {
    var c := t.calls[|s.calls| + j];
    c.id == s.committedUpto + 1 + j && Ran(c, app) && Answers(t, out[j], c)
  }

  ghost predicate Served(s: ServerState, t: ServerState, out: seq<Response>, app: AppFn) {
    && |t.calls| == |s.calls| + |out| && t.calls[..|s.calls|] == s.calls
    && forall j :: 0 <= j < |out| ==> ServedAt(s, t, out, app, j)
  }

  lemma ServedOneMore(s: ServerState, m: ServerState, t: ServerState, r: Response, out: seq<Response>, app: AppFn)
    requires |m.calls| == |s.calls| + 1 && m.calls[..|s.calls|] == s.calls && m.committedUpto == s.committedUpto + 1
    requires m.calls[|s.calls|].id == m.committedUpto && Ran(m.calls[|s.calls|], app)
    requires Answers(t, r, m.calls[|s.calls|]) && Served(m, t, out, app)
    ensures Served(s, t, [r] + out, app)
  {
    hide Ran, Answers;
    var n := |s.calls|;
    assert t.calls[n] == t.calls[..n + 1][n] == m.calls[n];
    assert t.calls[..n] == t.calls[..n + 1][..n];
    forall j | 0 <= j < |[r] + out| ensures ServedAt(s, t, [r] + out, app, j) {
      if j > 0 {
        assert ServedAt(m, t, out, app, j - 1);
        assert n + j == |m.calls| + (j - 1);
      }
    }
  }

  lemma {:induction false} LoopReplies(hf: HashFn, s: ServerState, app: AppFn)
    requires Keyed(s)
    ensures
      var res := CommitLoop(hf, s, app);
      SameBelow(s, res.state, s.committedUpto) && Served(s, res.state, res.out, app)
    decreases |s.pendingReqs|
  {
    hide CommitNext, MakeResponse, Answers, Ran, Keyed, SameBelow, Served;
    if s.committedUpto + 1 !in s.pendingReqs {
      CommitLoopStop(hf, s, app);
      NothingServed(s, app);
    } else {
      var s' := CommitNext(hf, s, app);
      var id := s.committedUpto + 1;
      KeyedId(s, id);
      CommitNextStaging(hf, s, app);
      CommitLoopTurn(hf, s, app, []);
      CommitReply(hf, s, app);
      LoopReplies(hf, s', app);
      var res, rest := CommitLoop(hf, s, app), CommitLoop(hf, s', app);
      var r := MakeResponse(s', id, s'.respBuffer[id], false);
      assert [] + res.out == res.out && [] + [r] + rest.out == [r] + rest.out;
      SameThrough(s, s', res.state, s.committedUpto);
      StillAnswers(s', res.state, r, s'.calls[|s.calls|]);
      ServedOneMore(s, s', res.state, r, rest.out, app);
    }
  }

  lemma NothingServed(s: ServerState, app: AppFn)
    ensures SameBelow(s, s, s.committedUpto) && Served(s, s, [], app)
  {
  }

  lemma KeyedId(s: ServerState, id: SeqNum)
    requires Keyed(s) && id in s.pendingReqs
    ensures s.pendingReqs[id].id == id
  {
  }

  // ---- the replies of one delivery ----

  /** What a request at or below the frontier is answered with. */
  ghost predicate AnswersOnce(s: ServerState, req: Request, app: AppFn, res: Result) {
    var t := res.state;
    && |res.out| == 1
    && var r := res.out[0];
    && r.id == req.id && !r.recover && CarriesHash(t, r)
    && t.committedUpto == s.committedUpto && t.reqHash == s.reqHash && t.setHash == s.setHash
    && if req.id in s.respBuffer && req.id >= req.ackBase && req.id !in req.ackNew
       then !r.noOp && r.payload == s.respBuffer[req.id] && t.calls == s.calls
       else if req.id in s.awaiting
       then
         && |t.calls| == |s.calls| + 1 && t.calls[..|s.calls|] == s.calls && req.id !in t.awaiting
         && t.calls[|s.calls|] == AppCall(req.id, req.payload, s.history, app(req.id, req.payload, s.history))
         && Answers(t, r, t.calls[|s.calls|])
       else r.noOp && r.payload == "" && t.calls == s.calls
  }

  lemma CommittedReply(hf: HashFn, s: ServerState, req: Request, app: AppFn)
    requires !NeedsRecover(s, req) && req.id <= s.committedUpto
    ensures AnswersOnce(s, req, app, OnRequest(hf, s, req, app))
  {
    hide NeedsRecover, CommitLoop, Released, Bump;
    Retained(s.respBuffer, req, req.id);
  }

  lemma Retained(buffer: map<SeqNum, string>, req: Request, id: SeqNum)
    ensures id in Released(buffer, req) <==> id in buffer && id >= req.ackBase && id !in req.ackNew
    ensures id in Released(buffer, req) ==> Released(buffer, req)[id] == buffer[id]
  {
  }

  /** Everything a server replies to any request. It asks for a replay from the end of what it
      holds, and changes nothing; or answers the one request; or answers each request it commits. */
  lemma DeliveryReplies(hf: HashFn, s: ServerState, req: Request, app: AppFn)
    requires Keyed(s)
    ensures
      var res := OnRequest(hf, s, req, app);
      && (NeedsRecover(s, req) ==>
            res == Result(s, [Response(req.id, None, "", false, true, s.history.EventCount())]))
      && (!NeedsRecover(s, req) && req.id <= s.committedUpto ==> AnswersOnce(s, req, app, res))
      && (!NeedsRecover(s, req) && req.id > s.committedUpto ==>
            Served(s, res.state, res.out, app) && |res.out| == res.state.committedUpto - s.committedUpto)
  {
    hide AnswersOnce, Served, CommitLoop, AnswerCommitted, NeedsRecover, Keyed;
    if !NeedsRecover(s, req) {
      if req.id <= s.committedUpto {
        CommittedReply(hf, s, req, app);
      } else {
        PlacedReplies(hf, s, req, app);
      }
    }
  }

  lemma PlacedReplies(hf: HashFn, s: ServerState, req: Request, app: AppFn)
    requires Keyed(s) && !NeedsRecover(s, req) && req.id > s.committedUpto
    ensures
      var res := OnRequest(hf, s, req, app);
      && Served(s, res.state, res.out, app) && |res.out| == res.state.committedUpto - s.committedUpto
      && SameBelow(Release(s, req), res.state, s.committedUpto)
  {
    hide CommitLoop, NeedsRecover, Served;
    var s1 := Stage(Release(s, req), req);
    LoopReplies(hf, s1, app);
    CommitLoopAnswers(hf, s1, app);
    ServedTracked(s, s1, CommitLoop(hf, s1, app).state, CommitLoop(hf, s1, app).out, app);
  }

  lemma ServedTracked(s: ServerState, s1: ServerState, t: ServerState, out: seq<Response>, app: AppFn)
    requires Served(s1, t, out, app) && s1.calls == s.calls && s1.committedUpto == s.committedUpto
    ensures Served(s, TrackBounds(t), out, app)
  {
    hide Ran;
    var u := TrackBounds(t);
    forall j | 0 <= j < |out| ensures ServedAt(s, u, out, app, j) {
      assert ServedAt(s1, t, out, app, j);
    }
  }

  // ---- what stays buffered ----

  /** A request the server can place frees exactly what it acknowledges: nothing below its base and
      nothing it lists stays buffered, and what else was buffered stays as it was. */
  lemma DeliveryReleases(hf: HashFn, s: ServerState, req: Request, app: AppFn)
    requires Keyed(s) && !NeedsRecover(s, req) && req.id >= req.ackBase && req.id !in req.ackNew
    requires forall i :: i in s.respBuffer ==> i <= s.committedUpto
    ensures
      var t := OnRequest(hf, s, req, app).state;
      && (forall i :: i in t.respBuffer ==> i >= req.ackBase && i !in req.ackNew)
      && (forall i :: i in s.respBuffer && i >= req.ackBase && i !in req.ackNew ==>
            i in t.respBuffer && t.respBuffer[i] == s.respBuffer[i])
      && (forall i :: i in t.respBuffer && i <= s.committedUpto ==> i in s.respBuffer || i == req.id)
  {
    hide CommitLoop;
    if req.id > s.committedUpto {
      PlacedReplies(hf, s, req, app);
      LoopBuffers(hf, Stage(Release(s, req), req), app);
      assert forall i :: i in req.ackNew ==> i <= s.committedUpto;
    }
  }

  lemma {:induction false} LoopBuffers(hf: HashFn, s: ServerState, app: AppFn)
    requires Keyed(s)
    ensures forall i :: i in CommitLoop(hf, s, app).state.respBuffer ==> i in s.respBuffer || i > s.committedUpto
    decreases |s.pendingReqs|
  {
    hide AppendAll;
    if s.committedUpto + 1 in s.pendingReqs {
      LoopBuffers(hf, CommitNext(hf, s, app), app);
    }
  }

  /** So in every run, for every request of the client's that the server can place. */
  lemma FrozenReleases(hf: HashFn, p: Policy, ys: seq<System>, sts: seq<Step>, k: nat, id: SeqNum, app: AppFn)
    requires Run(hf, p, ys, sts) && k <= |sts| && 1 <= id <= |ys[k].frozen|
    requires !NeedsRecover(ys[k].server, ys[k].frozen[id - 1])
    ensures
      var s, req := ys[k].server, ys[k].frozen[id - 1];
      var t := OnRequest(hf, s, req, app).state;
      && (forall i :: i in t.respBuffer ==> i >= req.ackBase && i !in req.ackNew)
      && (forall i :: i in s.respBuffer && i >= req.ackBase && i !in req.ackNew ==>
            i in t.respBuffer && t.respBuffer[i] == s.respBuffer[i])
      && (forall i :: i in t.respBuffer && i <= s.committedUpto ==> i in s.respBuffer || i == id)
  {
    hide OnRequest, NeedsRecover, ClientOk, MessagesOk, HistoryOk, OnceOk, HashAt, Apply, Enabled, Init;
    RunAgrees(hf, p, ys, sts, k);
    var y := ys[k];
    assert RequestOk(hf, y.frozen, id - 1, y.client.received);
    ReachableConsistent(hf, p, ys, sts, k);
    DeliveryReleases(hf, y.server, y.frozen[id - 1], app);
  }

  // ---- every real answer is the output of a call ----

  /** What the calls of a server returned, and for which id. */
  ghost function Outputs(s: ServerState): set<(SeqNum, string)> {
    set c | c in s.calls :: (c.id, c.output)
  }

  /** What all calls up to here returned, whichever server made them. */
  ghost function Returned(ys: seq<System>, k: nat): set<(SeqNum, string)>
    requires k < |ys|
  {
    Outputs(ys[k].server) + if k == 0 then {} else Returned(ys, k - 1)
  }

  ghost predicate Backed(answers: map<SeqNum, string>, made: set<(SeqNum, string)>) {
    forall i :: i in answers ==> (i, answers[i]) in made
  }

  /** Whatever passes for an answer was returned by a call. */
  ghost predicate Genuine(y: System, made: set<(SeqNum, string)>) {
    && Backed(y.server.respBuffer, made)
    && (forall cp, j :: cp in y.checkpoints && 0 <= j < |cp.buffer| ==> (cp.buffer[j].id, cp.buffer[j].payload) in made)
    && (forall r :: r in y.responses && !r.noOp ==> (r.id, r.payload) in made)
    && (forall d :: d in y.client.delivered ==> (d.id, d.payload) in made)
    && Backed(y.client.receivedPayload, made)
  }

  lemma CallReturned(s: ServerState, j: nat)
    requires j < |s.calls|
    ensures (s.calls[j].id, s.calls[j].output) in Outputs(s)
  {
    assert s.calls[j] in s.calls;
  }

  /** Of one delivery: what it buffers and what it answers was buffered before or returned now. */
  lemma DeliveryGenuine(hf: HashFn, s: ServerState, req: Request, app: AppFn, made: set<(SeqNum, string)>)
    requires Keyed(s) && Backed(s.respBuffer, made)
    ensures
      var res := OnRequest(hf, s, req, app);
      var more := made + Outputs(res.state);
      && Backed(res.state.respBuffer, more)
      && (forall r :: r in res.out && !r.noOp && !r.recover ==> (r.id, r.payload) in more)
  {
    hide OnRequest, NeedsRecover, Served, AnswersOnce, Keyed;
    DeliveryReplies(hf, s, req, app);
    if !NeedsRecover(s, req) {
      if req.id <= s.committedUpto {
        CommittedGenuine(hf, s, req, app, made);
      } else {
        PlacedGenuine(hf, s, req, app, made);
      }
    }
  }

  lemma CommittedGenuine(hf: HashFn, s: ServerState, req: Request, app: AppFn, made: set<(SeqNum, string)>)
    requires !NeedsRecover(s, req) && req.id <= s.committedUpto
    requires Backed(s.respBuffer, made)
    ensures
      var res := OnRequest(hf, s, req, app);
      var more := made + Outputs(res.state);
      && Backed(res.state.respBuffer, more)
      && (forall r :: r in res.out && !r.noOp && !r.recover ==> (r.id, r.payload) in more)
  {
    hide NeedsRecover;
    CommittedReply(hf, s, req, app);
    var t := OnRequest(hf, s, req, app).state;
    if |t.calls| > |s.calls| {
      CallReturned(t, |s.calls|);
    }
  }

  lemma PlacedGenuine(hf: HashFn, s: ServerState, req: Request, app: AppFn, made: set<(SeqNum, string)>)
    requires Keyed(s) && !NeedsRecover(s, req) && req.id > s.committedUpto
    requires Backed(s.respBuffer, made)
    ensures
      var res := OnRequest(hf, s, req, app);
      var more := made + Outputs(res.state);
      && Backed(res.state.respBuffer, more)
      && (forall r :: r in res.out && !r.noOp && !r.recover ==> (r.id, r.payload) in more)
  {
    hide CommitLoop, NeedsRecover, Ran;
    PlacedReplies(hf, s, req, app);
    var res := OnRequest(hf, s, req, app);
    var t := res.state;
    forall j | 0 <= j < |res.out| ensures (res.out[j].id, res.out[j].payload) in Outputs(t) {
      assert ServedAt(s, t, res.out, app, j);
      CallReturned(t, |s.calls| + j);
    }
    LoopFills(hf, Stage(Release(s, req), req), app);
  }

  lemma CommitFills(hf: HashFn, s: ServerState, app: AppFn)
    requires Keyed(s) && s.committedUpto + 1 in s.pendingReqs
    ensures
      var t := CommitNext(hf, s, app);
      forall i :: i in t.respBuffer ==>
        (i in s.respBuffer && t.respBuffer[i] == s.respBuffer[i]) || (i, t.respBuffer[i]) in Outputs(t)
  {
    hide AppendAll;
    CallReturned(CommitNext(hf, s, app), |s.calls|);
  }

  lemma OutputsGrow(s: ServerState, t: ServerState)
    requires |s.calls| <= |t.calls| && t.calls[..|s.calls|] == s.calls
    ensures Outputs(s) <= Outputs(t)
  {
    forall c | c in s.calls ensures c in t.calls {
      var j :| 0 <= j < |s.calls| && s.calls[j] == c;
      assert t.calls[..|s.calls|][j] == t.calls[j];
    }
  }

  lemma {:induction false} LoopFills(hf: HashFn, s: ServerState, app: AppFn)
    requires Keyed(s)
    ensures
      var t := CommitLoop(hf, s, app).state;
      forall i :: i in t.respBuffer ==>
        (i in s.respBuffer && t.respBuffer[i] == s.respBuffer[i]) || (i, t.respBuffer[i]) in Outputs(t)
    decreases |s.pendingReqs|
  {
    hide CommitNext, Keyed, Served, SameBelow, Outputs;
    if s.committedUpto + 1 in s.pendingReqs {
      var s' := CommitNext(hf, s, app);
      CommitNextStaging(hf, s, app);
      CommitLoopTurn(hf, s, app, []);
      CommitFills(hf, s, app);
      LoopFills(hf, s', app);
      LoopReplies(hf, s', app);
      ServedPrefix(s', CommitLoop(hf, s', app).state, CommitLoop(hf, s', app).out, app);
    }
  }

  lemma ServedPrefix(s: ServerState, t: ServerState, out: seq<Response>, app: AppFn)
    requires Served(s, t, out, app)
    ensures Outputs(s) <= Outputs(t)
  {
    OutputsGrow(s, t);
  }

  lemma DeliverGenuine(hf: HashFn, y: System, id: SeqNum, app: AppFn, made: set<(SeqNum, string)>)
    requires Keyed(y.server) && Genuine(y, made) && 1 <= id <= |y.frozen|
    ensures
      var z := Apply(hf, y, DeliverRequest(id, app));
      Genuine(z, made + Outputs(z.server))
  {
    hide OnRequest, Keyed, Outputs;
    DeliveryGenuine(hf, y.server, y.frozen[id - 1], app, made);
  }

  lemma ReceiveGenuine(y: System, r: Response, made: set<(SeqNum, string)>)
    requires Genuine(y, made) && r in y.responses
    ensures Genuine(y.(client := OnResponse(y.client, r)), made)
  {
    hide AdvanceBase;
  }

  lemma CheckpointGenuine(y: System, cp: Checkpoint, made: set<(SeqNum, string)>)
    requires Genuine(y, made) && IsCheckpointOf(cp, y.server)
    ensures Genuine(y.(checkpoints := y.checkpoints + {cp}), made)
  {
  }

  lemma {:induction false} RestoreGenuine(s: ServerState, buffer: seq<BufferedResponse>, made: set<(SeqNum, string)>)
    requires Backed(s.respBuffer, made)
    requires forall j :: 0 <= j < |buffer| ==> (buffer[j].id, buffer[j].payload) in made
    ensures
      Backed(RestoreBuffer(s, buffer).respBuffer, made)
    decreases |buffer|
  {
    if buffer != [] {
      var b := buffer[0];
      var s' := s.(respBuffer := s.respBuffer[b.id := b.payload], reqHash := s.reqHash[b.id := b.hash]);
      assert (buffer[0].id, buffer[0].payload) in made;
      assert Backed(s'.respBuffer, made);
      assert forall j :: 0 <= j < |buffer[1..]| ==> buffer[1..][j] == buffer[j + 1];
      RestoreGenuine(s', buffer[1..], made);
    }
  }

  lemma {:induction false} IngestGenuine(hf: HashFn, s: ServerState, es: seq<Event>)
    ensures
      var t := IngestEvents(hf, s, es);
      forall i :: i in t.respBuffer ==> i in s.respBuffer && t.respBuffer[i] == s.respBuffer[i]
    decreases |es|
  {
    if es != [] {
      IngestGenuine(hf, IngestEvent(hf, s, es[0]), es[1..]);
    }
  }

  lemma GenuineMore(y: System, made: set<(SeqNum, string)>, more: set<(SeqNum, string)>)
    requires Genuine(y, made) && made <= more
    ensures Genuine(y, more)
  {
  }

  lemma ReplaceGenuine(y: System, s: ServerState, lost: nat, made: set<(SeqNum, string)>)
    requires Genuine(y, made) && Backed(s.respBuffer, made)
    ensures Genuine(y.(server := s), made) && Genuine(y.(server := s, lostMismatches := lost), made)
  {
  }

  lemma CrashGenuine(hf: HashFn, y: System, cp: Checkpoint, made: set<(SeqNum, string)>)
    requires Genuine(y, made) && cp in y.checkpoints
    ensures Genuine(Apply(hf, y, Crash(cp)), made)
  {
    hide RestoreBuffer;
    assert forall j :: 0 <= j < |cp.buffer| ==> (cp.buffer[j].id, cp.buffer[j].payload) in made;
    RestoreGenuine(ServerState(y.server.setHash, cp.committedUpto, map[], map[], map[], {}, map[],
                               Resumed(cp.historyHash, cp.eventCount), 0, 0, 0, []), cp.buffer, made);
    ReplaceGenuine(y, Restore(cp, y.server.setHash), y.lostMismatches + y.server.mismatches, made);
  }

  lemma ReplayGenuine(hf: HashFn, y: System, b: BuiltReplay, made: set<(SeqNum, string)>)
    requires Genuine(y, made)
    ensures Genuine(Apply(hf, y, IngestReplay(b)), made)
  {
    IngestGenuine(hf, y.server, EventsOf(Unheld(y.server, b.replay)));
    assert Backed(y.server.respBuffer, made);
    ReplaceGenuine(y, Ingest(hf, y.server, b.replay), 0, made);
  }

  lemma OthersGenuine(hf: HashFn, p: Policy, y: System, st: Step, made: set<(SeqNum, string)>)
    requires Genuine(y, made) && Enabled(p, y, st) && (st.Generate? || st.PostReplay?)
    ensures Genuine(Apply(hf, y, st), made)
  {
    hide GenerateRequest, Backed, BuildReplay;
    if st.Generate? {
      GenerateKeeps(hf, y.client, st.payload);
    }
  }

  lemma StepGenuine(hf: HashFn, p: Policy, y: System, st: Step, made: set<(SeqNum, string)>)
    requires Keyed(y.server) && Genuine(y, made) && Enabled(p, y, st)
    ensures
      var z := Apply(hf, y, st);
      Genuine(z, made + Outputs(z.server))
  {
    hide Genuine, OnRequest, OnResponse, GenerateRequest, IsCheckpointOf, Keyed, Outputs, Restore, Ingest, BuildReplay;
    var z := Apply(hf, y, st);
    match st
    case DeliverRequest(id, app) => DeliverGenuine(hf, y, id, app, made);
    case DeliverResponse(r) =>
      ReceiveGenuine(y, r, made);
      GenuineMore(z, made, made + Outputs(z.server));
    case TakeCheckpoint(cp) =>
      CheckpointGenuine(y, cp, made);
      GenuineMore(z, made, made + Outputs(z.server));
    case IngestReplay(b) =>
      ReplayGenuine(hf, y, b, made);
      GenuineMore(z, made, made + Outputs(z.server));
    case Crash(cp) =>
      CrashGenuine(hf, y, cp, made);
      GenuineMore(z, made, made + Outputs(z.server));
    case _ =>
      OthersGenuine(hf, p, y, st, made);
      GenuineMore(z, made, made + Outputs(z.server));
  }

  lemma GenerateKeeps(hf: HashFn, c: ClientState, payload: string)
    ensures
      var d := GenerateRequest(hf, c, payload);
      d.delivered == c.delivered && d.receivedPayload == c.receivedPayload
  {
    hide AppendAll;
  }

  /** In every run, across any failovers, every real answer ever sent, everything buffered or saved in
      a checkpoint, and everything the client delivered or keeps for replay is what a call of the
      application returned for that id. */
  lemma {:induction false} AnswersGenuine(hf: HashFn, p: Policy, ys: seq<System>, sts: seq<Step>, k: nat)
    requires Run(hf, p, ys, sts) && k <= |sts|
    ensures Genuine(ys[k], Returned(ys, k))
  {
    hide Genuine, Apply, Enabled, Init, Consistent;
    if k == 0 {
      InitGenuine(hf, p, ys, sts);
    } else {
      AnswersGenuine(hf, p, ys, sts, k - 1);
      ReachableConsistent(hf, p, ys, sts, k - 1);
      ConsistentKeyed(ys[k - 1].server);
      assert Enabled(p, ys[k - 1], sts[k - 1]);
      StepGenuine(hf, p, ys[k - 1], sts[k - 1], Returned(ys, k - 1));
      assert Returned(ys, k - 1) + Outputs(ys[k].server) == Returned(ys, k);
    }
  }

  lemma ConsistentKeyed(s: ServerState)
    requires Consistent(s)
    ensures Keyed(s)
  {
  }

  lemma InitGenuine(hf: HashFn, p: Policy, ys: seq<System>, sts: seq<Step>)
    requires Run(hf, p, ys, sts)
    ensures Genuine(ys[0], Returned(ys, 0))
  {
  }
}
