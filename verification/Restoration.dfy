/** A server restored from its own checkpoint against the server that wrote it. */
module Restoration {
  import opened Messages
  import opened History
  import opened Canon
  import opened Server
  import opened Commits
  import opened Protocol
  import opened Safety
  import opened Runs
  import opened Recovery

  /** What a server can be asked to do between two checkpoints. */
  datatype Op = Ask(req: Request, app: AppFn) | Feed(replay: Replay)

  datatype Outcome = Outcome(state: ServerState, outs: seq<seq<Response>>)

  function Perform(hf: HashFn, s: ServerState, op: Op): Result {
    match op
    case Ask(req, app) => OnRequest(hf, s, req, app)
    case Feed(rp) => Result(Ingest(hf, s, rp), [])
  }

  function PerformAll(hf: HashFn, s: ServerState, ops: seq<Op>): Outcome
    decreases |ops|
  {
    if ops == [] then Outcome(s, []) else
      var first := Perform(hf, s, ops[0]);
      var rest := PerformAll(hf, first.state, ops[1..]);
      Outcome(rest.state, [first.out] + rest.outs)
  }

  // ---- ingesting a replay again ----

  lemma {:induction false} CommitLoopCounts(hf: HashFn, s: ServerState, app: AppFn)
    ensures CommitLoop(hf, s, app).state.history.EventCount() >= s.history.EventCount()
    decreases |s.pendingReqs|
  {
    if s.committedUpto + 1 in s.pendingReqs {
      AppendAllRetains(hf, s.history, Block(s.pendingReqs[s.committedUpto + 1]));
      CommitLoopCounts(hf, CommitNext(hf, s, app), app);
    }
  }

  lemma PerformCounts(hf: HashFn, s: ServerState, op: Op)
    ensures Perform(hf, s, op).state.history.EventCount() >= s.history.EventCount()
  {
    match op
    case Ask(req, app) =>
      CommitLoopCounts(hf, Stage(Release(s, req), req), app);
    case Feed(rp) =>
      IngestCounts(hf, s, EventsOf(Unheld(s, rp)));
  }

  lemma {:induction false} PerformAllCounts(hf: HashFn, s: ServerState, ops: seq<Op>)
    ensures PerformAll(hf, s, ops).state.history.EventCount() >= s.history.EventCount()
    decreases |ops|
  {
    if ops != [] {
      PerformCounts(hf, s, ops[0]);
      PerformAllCounts(hf, Perform(hf, s, ops[0]).state, ops[1..]);
    }
  }

  /** A replay with no gap, ingested again after anything else happened, changes nothing:
      requests it left awaiting and that were answered since are not awaited again. */
  lemma ReplayIdempotent(hf: HashFn, s: ServerState, rp: Replay, ops: seq<Op>)
    requires rp.from <= s.history.EventCount()
    ensures
      var later := PerformAll(hf, Ingest(hf, s, rp), ops).state;
      Ingest(hf, later, rp) == later
  {
    IngestCounts(hf, s, EventsOf(Unheld(s, rp)));
    PerformAllCounts(hf, Ingest(hf, s, rp), ops);
    var later := PerformAll(hf, Ingest(hf, s, rp), ops).state;
    assert EventsOf(Unheld(later, rp)) == [];
  }

  // ---- the two servers ----

  /** Same length and same hash: all that survives of a history across a restore. */
  ghost predicate SameSummary(g: HistoryState, h: HistoryState) {
    g.EventCount() == h.EventCount() && g.curHash == h.curHash
  }

  /** The application looks at the history only through its summary. */
  ghost predicate ReadsSummary(app: AppFn) {
    forall id, payload, g, h :: SameSummary(g, h) ==> app(id, payload, g) == app(id, payload, h)
  }

  /** What is compared: with `whole`, any application, which may look at all that is retained of
      the history; without, those that look at its summary. */
  ghost predicate AppOk(whole: bool, app: AppFn) {
    whole || ReadsSummary(app)
  }

  ghost predicate OpOk(whole: bool, op: Op) {
    op.Ask? ==> AppOk(whole, op.app)
  }

  ghost predicate SameView(whole: bool, g: HistoryState, h: HistoryState) {
    SameSummary(g, h) && (whole ==> g == h)
  }

  /** Two servers that no request or replay can tell apart. */
  ghost predicate Similar(whole: bool, a: ServerState, b: ServerState) {
    && a.setHash == b.setHash && a.committedUpto == b.committedUpto
    && a.respBuffer == b.respBuffer && a.awaiting == b.awaiting
    && SameView(whole, a.history, b.history)
    && (forall k :: k > a.committedUpto ==> (k in a.pendingReqs <==> k in b.pendingReqs))
    && (forall k :: k > a.committedUpto && k in a.pendingReqs && k in b.pendingReqs ==>
          a.pendingReqs[k] == b.pendingReqs[k])
    && (forall i :: i in a.respBuffer || i in a.awaiting ==>
          i in a.reqHash && i in b.reqHash && a.reqHash[i] == b.reqHash[i])
  }

  /** Equal responses, except that a no-op may carry a different hash or none. */
  ghost predicate Alike(r: Response, q: Response) {
    r.(hash := None) == q.(hash := None) && (!r.noOp ==> r.hash == q.hash)
  }

  ghost predicate AllAlike(r: seq<Response>, q: seq<Response>) {
    |r| == |q| && forall k :: 0 <= k < |r| ==> Alike(r[k], q[k])
  }

  ghost predicate OutsAlike(r: seq<seq<Response>>, q: seq<seq<Response>>) {
    |r| == |q| && forall k :: 0 <= k < |r| ==> AllAlike(r[k], q[k])
  }

  lemma {:induction false} AppendAllView(hf: HashFn, whole: bool, g: HistoryState, h: HistoryState, es: seq<Event>)
    requires SameView(whole, g, h)
    ensures SameView(whole, AppendAll(hf, g, es), AppendAll(hf, h, es))
    decreases |es|
  {
    if es != [] {
      AppendAllView(hf, whole, Append(hf, g, es[0]), Append(hf, h, es[0]), es[1..]);
    }
  }

  lemma NextSimilar(whole: bool, a: ServerState, b: ServerState)
    requires Similar(whole, a, b)
    ensures a.committedUpto == b.committedUpto
    ensures a.committedUpto + 1 in a.pendingReqs <==> b.committedUpto + 1 in b.pendingReqs
    ensures a.committedUpto + 1 in a.pendingReqs ==>
      a.pendingReqs[a.committedUpto + 1] == b.pendingReqs[b.committedUpto + 1]
  {
  }

  lemma CommitNextSimilar(hf: HashFn, whole: bool, a: ServerState, b: ServerState, app: AppFn)
    requires Similar(whole, a, b) && Keyed(a) && AppOk(whole, app)
    requires a.committedUpto + 1 in a.pendingReqs && b.committedUpto + 1 in b.pendingReqs
    ensures
      var a', b' := CommitNext(hf, a, app), CommitNext(hf, b, app);
      var id := a.pendingReqs[a.committedUpto + 1].id;
      && Similar(whole, a', b') && Keyed(a')
      && Alike(MakeResponse(a', id, a'.respBuffer[id], false), MakeResponse(b', id, b'.respBuffer[id], false))
  {
    var r := a.pendingReqs[a.committedUpto + 1];
    AppendAllView(hf, whole, a.history, b.history, Block(r));
  }

  lemma {:induction false} CommitLoopSimilar(hf: HashFn, whole: bool, a: ServerState, b: ServerState, app: AppFn)
    requires Similar(whole, a, b) && Keyed(a) && AppOk(whole, app)
    ensures
      var x, z := CommitLoop(hf, a, app), CommitLoop(hf, b, app);
      Similar(whole, x.state, z.state) && Keyed(x.state) && AllAlike(x.out, z.out)
    decreases |a.pendingReqs|
  {
    hide Similar, Keyed, CommitNext, MakeResponse, Alike;
    NextSimilar(whole, a, b);
    if a.committedUpto + 1 in a.pendingReqs {
      CommitNextSimilar(hf, whole, a, b, app);
      CommitLoopTurn(hf, a, app, []);
      CommitLoopSimilar(hf, whole, CommitNext(hf, a, app), CommitNext(hf, b, app), app);
    }
  }

  lemma AnswerSimilar(whole: bool, a: ServerState, b: ServerState, req: Request, app: AppFn)
    requires Similar(whole, a, b) && Keyed(a) && AppOk(whole, app)
    ensures
      var x, z := AnswerCommitted(a, req, app), AnswerCommitted(b, req, app);
      Similar(whole, x.state, z.state) && Keyed(x.state) && AllAlike(x.out, z.out)
  {
  }

  lemma ReleaseSimilar(whole: bool, a: ServerState, b: ServerState, req: Request)
    requires Similar(whole, a, b) && Keyed(a)
    ensures Similar(whole, Release(a, req), Release(b, req)) && Keyed(Release(a, req))
    ensures NeedsRecover(a, req) == NeedsRecover(b, req) && RecoverSignal(a, req) == RecoverSignal(b, req)
    ensures Release(a, req).committedUpto == Release(b, req).committedUpto
  {
  }

  lemma StageSimilar(whole: bool, a: ServerState, b: ServerState, req: Request)
    requires Similar(whole, a, b) && Keyed(a)
    ensures Similar(whole, Stage(a, req), Stage(b, req)) && Keyed(Stage(a, req))
  {
  }

  lemma TrackSimilar(whole: bool, a: ServerState, b: ServerState)
    requires Similar(whole, a, b) && Keyed(a)
    ensures Similar(whole, TrackBounds(a), TrackBounds(b)) && Keyed(TrackBounds(a))
  {
  }

  lemma OnRequestSimilar(hf: HashFn, whole: bool, a: ServerState, b: ServerState, req: Request, app: AppFn)
    requires Similar(whole, a, b) && Keyed(a) && AppOk(whole, app)
    ensures
      var x, z := OnRequest(hf, a, req, app), OnRequest(hf, b, req, app);
      Similar(whole, x.state, z.state) && Keyed(x.state) && AllAlike(x.out, z.out)
  {
    hide Similar, Keyed, NeedsRecover, RecoverSignal, Release, Stage, TrackBounds, CommitLoop, AnswerCommitted;
    ReleaseSimilar(whole, a, b, req);
    var a1, b1 := Release(a, req), Release(b, req);
    AnswerSimilar(whole, a1, b1, req, app);
    TrackSimilar(whole, AnswerCommitted(a1, req, app).state, AnswerCommitted(b1, req, app).state);
    StageSimilar(whole, a1, b1, req);
    CommitLoopSimilar(hf, whole, Stage(a1, req), Stage(b1, req), app);
    TrackSimilar(whole, CommitLoop(hf, Stage(a1, req), app).state, CommitLoop(hf, Stage(b1, req), app).state);
  }

  lemma IngestEventSimilar(hf: HashFn, whole: bool, a: ServerState, b: ServerState, e: Event)
    requires Similar(whole, a, b) && Keyed(a)
    ensures Similar(whole, IngestEvent(hf, a, e), IngestEvent(hf, b, e)) && Keyed(IngestEvent(hf, a, e))
  {
  }

  lemma {:induction false} IngestEventsSimilar(hf: HashFn, whole: bool, a: ServerState, b: ServerState, es: seq<Event>)
    requires Similar(whole, a, b) && Keyed(a)
    ensures
      var x, z := IngestEvents(hf, a, es), IngestEvents(hf, b, es);
      Similar(whole, x, z) && Keyed(x)
    decreases |es|
  {
    hide Similar, Keyed, IngestEvent;
    if es != [] {
      IngestEventSimilar(hf, whole, a, b, es[0]);
      IngestEventsSimilar(hf, whole, IngestEvent(hf, a, es[0]), IngestEvent(hf, b, es[0]), es[1..]);
    }
  }

  lemma PerformSimilar(hf: HashFn, whole: bool, a: ServerState, b: ServerState, op: Op)
    requires Similar(whole, a, b) && Keyed(a) && OpOk(whole, op)
    ensures
      var x, z := Perform(hf, a, op), Perform(hf, b, op);
      Similar(whole, x.state, z.state) && Keyed(x.state) && AllAlike(x.out, z.out)
  {
    match op
    case Ask(req, app) =>
      OnRequestSimilar(hf, whole, a, b, req, app);
    case Feed(rp) =>
      IngestEventsSimilar(hf, whole, a, b, EventsOf(Unheld(a, rp)));
  }

  lemma {:induction false} PerformAllSimilar(hf: HashFn, whole: bool, a: ServerState, b: ServerState, ops: seq<Op>)
    requires Similar(whole, a, b) && Keyed(a) && forall k :: 0 <= k < |ops| ==> OpOk(whole, ops[k])
    ensures OutsAlike(PerformAll(hf, a, ops).outs, PerformAll(hf, b, ops).outs)
    decreases |ops|
  {
    hide Perform, Similar, Keyed, OpOk, AllAlike;
    if ops != [] {
      PerformSimilar(hf, whole, a, b, ops[0]);
      PerformAllSimilar(hf, whole, Perform(hf, a, ops[0]).state, Perform(hf, b, ops[0]).state, ops[1..]);
    }
  }

  // ---- restoring ----

  lemma {:induction false} RestoreOnlyFills(s: ServerState, buffer: seq<BufferedResponse>)
    ensures
      var t := RestoreBuffer(s, buffer);
      t == s.(respBuffer := t.respBuffer, reqHash := t.reqHash)
    decreases |buffer|
  {
    if buffer != [] {
      var b := buffer[0];
      RestoreOnlyFills(
        s.(respBuffer := s.respBuffer[b.id := b.payload], reqHash := s.reqHash[b.id := b.hash]), buffer[1..]);
    }
  }

  /** A restored server starts with nothing staged, counted or called. */
  lemma RestoreBlank(cp: Checkpoint, setHash: bool)
    ensures
      var t := Restore(cp, setHash);
      && t.pendingReqs == map[] && t.maxPending == 0 && t.maxRespBuffer == 0 && t.calls == []
      && t.committedUpto == cp.committedUpto && t.appCalls == map[]
  {
    hide RestoreBuffer;
    RestoreOnlyFills(
      ServerState(setHash, cp.committedUpto, map[], map[], map[], {}, map[],
                  Resumed(cp.historyHash, cp.eventCount), 0, 0, 0, []), cp.buffer);
  }

  lemma {:induction false} RestoreBufferContents(s: ServerState, buffer: seq<BufferedResponse>)
    requires forall j, k :: 0 <= j < k < |buffer| ==> buffer[j].id != buffer[k].id
    ensures
      var t := RestoreBuffer(s, buffer);
      && t == s.(respBuffer := t.respBuffer, reqHash := t.reqHash)
      && (forall j :: 0 <= j < |buffer| ==>
            && buffer[j].id in t.respBuffer && t.respBuffer[buffer[j].id] == buffer[j].payload
            && buffer[j].id in t.reqHash && t.reqHash[buffer[j].id] == buffer[j].hash)
      && (forall i :: i in s.respBuffer && !Lists(buffer, i) ==>
            i in t.respBuffer && t.respBuffer[i] == s.respBuffer[i])
      && (forall i :: i in s.reqHash && !Lists(buffer, i) ==> i in t.reqHash && t.reqHash[i] == s.reqHash[i])
      && (forall i :: i in t.respBuffer ==> i in s.respBuffer || Lists(buffer, i))
    decreases |buffer|
  {
    hide Lists;
    if buffer != [] {
      var b, rest := buffer[0], buffer[1..];
      var s' := s.(respBuffer := s.respBuffer[b.id := b.payload], reqHash := s.reqHash[b.id := b.hash]);
      RestoreBufferContents(s', rest);
      ListsTail(buffer);
      assert forall j :: 0 < j < |buffer| ==> buffer[j] == rest[j - 1];
    }
  }

  /** What a list of distinct responses lists is its first and what the rest lists. */
  lemma ListsTail(buffer: seq<BufferedResponse>)
    requires buffer != []
    requires forall j, k :: 0 <= j < k < |buffer| ==> buffer[j].id != buffer[k].id
    ensures forall i :: Lists(buffer, i) <==> i == buffer[0].id || Lists(buffer[1..], i)
    ensures !Lists(buffer[1..], buffer[0].id)
  {
    var rest := buffer[1..];
    forall i ensures Lists(buffer, i) <==> i == buffer[0].id || Lists(rest, i) {
      if Lists(rest, i) {
        var j :| 0 <= j < |rest| && rest[j].id == i;
        assert buffer[j + 1].id == i;
      }
      if Lists(buffer, i) && i != buffer[0].id {
        var j :| 0 <= j < |buffer| && buffer[j].id == i;
        assert rest[j - 1].id == i;
      }
    }
  }

  /** Nothing is waiting: no staged request above the frontier, no replayed one unanswered. */
  ghost predicate Idle(s: ServerState) {
    s.awaiting == {} && forall k :: k in s.pendingReqs ==> k <= s.committedUpto
  }

  /** What every reachable server satisfies, whatever it is asked. */
  ghost predicate Consistent(s: ServerState) {
    && Keyed(s)
    && (forall i :: i in s.respBuffer ==> i in s.reqHash && i !in s.awaiting)
    && (forall i :: i in s.awaiting ==> i <= s.committedUpto)
  }

  lemma ReachableConsistent(hf: HashFn, p: Policy, ys: seq<System>, sts: seq<Step>, k: nat)
    requires Run(hf, p, ys, sts) && k <= |sts|
    ensures Consistent(ys[k].server)
  {
    RunAgrees(hf, p, ys, sts, k);
    var y := ys[k];
    forall i | i in y.server.pendingReqs ensures y.server.pendingReqs[i].id == i {
      assert RequestOk(hf, y.frozen, i - 1, y.client.received);
    }
  }

  /** Nothing is waiting and, where the whole history counts, none is retained. */
  ghost predicate Restorable(whole: bool, s: ServerState) {
    Idle(s) && (whole ==> s.history.events == [])
  }

  lemma RestoreSimilar(whole: bool, s: ServerState, cp: Checkpoint)
    requires Consistent(s) && IsCheckpointOf(cp, s) && Restorable(whole, s)
    ensures Similar(whole, s, Restore(cp, s.setHash))
  {
    var t0 := ServerState(s.setHash, cp.committedUpto, map[], map[], map[], {}, map[],
                          Resumed(cp.historyHash, cp.eventCount), 0, 0, 0, []);
    RestoreBufferContents(t0, cp.buffer);
    var t := Restore(cp, s.setHash);
    forall i | i in s.respBuffer
      ensures i in t.respBuffer && t.respBuffer[i] == s.respBuffer[i] && i in t.reqHash && t.reqHash[i] == s.reqHash[i]
    {
      assert Lists(cp.buffer, i);
    }
    assert t.respBuffer == s.respBuffer;
  }

  /** Checkpoint and restore lose nothing when the server is idle: the restored server
      answers every later sequence of requests and replays as the original would, up to
      the hash on no-op replies, in whatever order the checkpoint listed its buffer. */
  lemma RestoredAnswersAlike(hf: HashFn, whole: bool, s: ServerState, cp: Checkpoint, ops: seq<Op>)
    requires Consistent(s) && IsCheckpointOf(cp, s) && Restorable(whole, s)
    requires forall k :: 0 <= k < |ops| ==> OpOk(whole, ops[k])
    ensures OutsAlike(PerformAll(hf, s, ops).outs, PerformAll(hf, Restore(cp, s.setHash), ops).outs)
  {
    RestoreSimilar(whole, s, cp);
    PerformAllSimilar(hf, whole, s, Restore(cp, s.setHash), ops);
  }

  // ---- and only then ----

  function Probe(id: SeqNum): Request {
    Request(id, 0, [], None, "")
  }

  /** Delivering a probe at the frontier, in terms of the commit loop. */
  lemma ProbeUnfolds(hf: HashFn, s: ServerState, app: AppFn)
    ensures
      var req := Probe(s.committedUpto + 1);
      var res := CommitLoop(hf, Stage(Release(s, req), req), app);
      OnRequest(hf, s, req, app) == Result(TrackBounds(res.state), res.out)
  {
    hide CommitLoop;
  }

  /** A probe at the frontier commits, with everything staged behind it. */
  lemma ProbeNext(hf: HashFn, s: ServerState, app: AppFn)
    requires Keyed(s) && s.committedUpto + 1 !in s.pendingReqs
    ensures
      var c := s.committedUpto;
      var res := OnRequest(hf, s, Probe(c + 1), app);
      && Keyed(res.state)
      && (c + 2 in s.pendingReqs ==> |res.out| >= 2)
      && (c + 2 !in s.pendingReqs ==>
            |res.out| == 1 && res.state.committedUpto == c + 1 && res.state.pendingReqs == s.pendingReqs)
  {
    hide OnRequest, CommitLoop;
    var c := s.committedUpto;
    var s1 := Stage(Release(s, Probe(c + 1)), Probe(c + 1));
    ProbeUnfolds(hf, s, app);
    CommitLoopAnswers(hf, s1, app);
    var t := CommitLoop(hf, s1, app).state;
    assert t.committedUpto + 1 !in t.pendingReqs;
    if c + 2 !in s.pendingReqs {
      assert c + 2 !in s1.pendingReqs;
      assert t.pendingReqs == s.pendingReqs;
    }
  }

  /** A staged request is found out by filling the gap below it. */
  lemma {:induction false} StagedTold(hf: HashFn, a: ServerState, b: ServerState, x: SeqNum, app: AppFn)
    returns (ops: seq<Op>)
    requires Keyed(a) && Keyed(b) && a.committedUpto == b.committedUpto < x && ReadsSummary(app)
    requires x in a.pendingReqs && forall k :: a.committedUpto < k < x ==> k !in a.pendingReqs
    requires forall k :: k > b.committedUpto ==> k !in b.pendingReqs
    ensures forall k, whole :: 0 <= k < |ops| ==> OpOk(whole, ops[k])
    ensures !OutsAlike(PerformAll(hf, a, ops).outs, PerformAll(hf, b, ops).outs)
    decreases x - a.committedUpto
  {
    var c := a.committedUpto;
    hide OnRequest;
    if x == c + 1 {
      ops := [Ask(Probe(c + 2), app)];
      ProbeBeyond(hf, a, app);
      ProbeBeyond(hf, b, app);
      assert PerformAll(hf, a, ops).outs[0] == OnRequest(hf, a, Probe(c + 2), app).out;
      assert PerformAll(hf, b, ops).outs[0] == OnRequest(hf, b, Probe(c + 2), app).out;
    } else {
      var op := Ask(Probe(c + 1), app);
      ProbeNext(hf, a, app);
      ProbeNext(hf, b, app);
      var a', b' := OnRequest(hf, a, op.req, app), OnRequest(hf, b, op.req, app);
      if x == c + 2 {
        ops := [op];
        assert PerformAll(hf, a, ops).outs[0] == a'.out;
        assert PerformAll(hf, b, ops).outs[0] == b'.out;
      } else {
        var rest := StagedTold(hf, a'.state, b'.state, x, app);
        ops := [op] + rest;
        TellLater(hf, a, b, op, rest);
      }
    }
  }

  lemma TellLater(hf: HashFn, a: ServerState, b: ServerState, op: Op, rest: seq<Op>)
    requires !OutsAlike(PerformAll(hf, Perform(hf, a, op).state, rest).outs,
                        PerformAll(hf, Perform(hf, b, op).state, rest).outs)
    ensures !OutsAlike(PerformAll(hf, a, [op] + rest).outs, PerformAll(hf, b, [op] + rest).outs)
  {
    hide Perform;
    var p := PerformAll(hf, Perform(hf, a, op).state, rest).outs;
    var q := PerformAll(hf, Perform(hf, b, op).state, rest).outs;
    assert ([op] + rest)[1..] == rest;
    var p', q' := PerformAll(hf, a, [op] + rest).outs, PerformAll(hf, b, [op] + rest).outs;
    assert p'[1..] == p && q'[1..] == q;
    if |p| == |q| {
      var k :| 0 <= k < |p| && !AllAlike(p[k], q[k]);
      assert p'[k + 1] == p[k] && q'[k + 1] == q[k];
    }
  }

  /** A probe past a missing id answers at once exactly when that id was already staged. */
  lemma ProbeBeyond(hf: HashFn, s: ServerState, app: AppFn)
    requires Keyed(s)
    ensures |OnRequest(hf, s, Probe(s.committedUpto + 2), app).out| > 0 <==> s.committedUpto + 1 in s.pendingReqs
  {
    var req := Probe(s.committedUpto + 2);
    assert !NeedsRecover(s, req);
    var s1 := Stage(Release(s, req), req);
    if s.committedUpto + 1 in s.pendingReqs {
      CommitLoopTurn(hf, s1, app, []);
    }
  }

  lemma AwaitingTold(hf: HashFn, a: ServerState, b: ServerState, i: SeqNum, app: AppFn)
    requires i in a.awaiting && i !in a.respBuffer && i <= a.committedUpto == b.committedUpto
    requires i !in b.awaiting && i !in b.respBuffer
    ensures !OutsAlike(PerformAll(hf, a, [Ask(Probe(i), app)]).outs, PerformAll(hf, b, [Ask(Probe(i), app)]).outs)
  {
    var ops := [Ask(Probe(i), app)];
    assert !NeedsRecover(a, Probe(i)) && !NeedsRecover(b, Probe(i));
    assert PerformAll(hf, a, ops).outs[0] == OnRequest(hf, a, Probe(i), app).out;
    assert PerformAll(hf, b, ops).outs[0] == OnRequest(hf, b, Probe(i), app).out;
    assert !OnRequest(hf, a, Probe(i), app).out[0].noOp;
    assert OnRequest(hf, b, Probe(i), app).out[0].noOp;
  }

  lemma LeastStaged(s: ServerState, k: SeqNum) returns (x: SeqNum)
    requires k in s.pendingReqs && k > s.committedUpto
    ensures s.committedUpto < x <= k && x in s.pendingReqs
    ensures forall j :: s.committedUpto < j < x ==> j !in s.pendingReqs
    decreases k
  {
    if j :| s.committedUpto < j < k && j in s.pendingReqs {
      x := LeastStaged(s, j);
    } else {
      x := k;
    }
  }

  ghost function Echo(): AppFn {
    (id, payload, h) => payload
  }

  /** An application that looks at how much of the history is retained. */
  ghost function Measure(): AppFn {
    (id: SeqNum, payload: string, h: HistoryState) => if |h.events| > 1 then "long" else "short"
  }

  /** A server that retains events is found out by the next request. */
  lemma RetainedTold(hf: HashFn, a: ServerState, b: ServerState)
    requires a.committedUpto == b.committedUpto && a.history.events != [] && b.history.events == []
    ensures
      var ops := [Ask(Probe(a.committedUpto + 1), Measure())];
      !OutsAlike(PerformAll(hf, a, ops).outs, PerformAll(hf, b, ops).outs)
  {
    hide OnRequest;
    var req := Probe(a.committedUpto + 1);
    var ops := [Ask(req, Measure())];
    MeasureAnswers(hf, a);
    MeasureAnswers(hf, b);
    assert PerformAll(hf, a, ops).outs[0] == OnRequest(hf, a, req, Measure()).out;
    assert PerformAll(hf, b, ops).outs[0] == OnRequest(hf, b, req, Measure()).out;
  }

  lemma MeasureAnswers(hf: HashFn, s: ServerState)
    ensures
      var out := OnRequest(hf, s, Probe(s.committedUpto + 1), Measure()).out;
      |out| > 0 && out[0].payload == if s.history.events != [] then "long" else "short"
  {
    hide OnRequest, CommitLoop, AppendAll;
    var req := Probe(s.committedUpto + 1);
    var s1 := Stage(Release(s, req), req);
    ProbeUnfolds(hf, s, Measure());
    CommitLoopTurn(hf, s1, Measure(), []);
    AppendAllRetains(hf, s.history, Block(req));
    var res, next := CommitLoop(hf, s1, Measure()), CommitNext(hf, s1, Measure());
    assert [] + res.out == res.out;
    assert res.out[0].payload == next.respBuffer[req.id];
    assert |Block(req)| == 1;
  }

  /** No request or replay, with any application considered, tells two servers apart. */
  ghost predicate Indistinguishable(hf: HashFn, whole: bool, a: ServerState, b: ServerState) {
    forall ops: seq<Op> :: (forall k :: 0 <= k < |ops| ==> OpOk(whole, ops[k])) ==>
      OutsAlike(PerformAll(hf, a, ops).outs, PerformAll(hf, b, ops).outs)
  }

  /** The exact condition: a checkpoint restores to a server that no application which looks at
      the history's summary can tell apart if and only if it was taken while nothing was staged
      above the frontier or awaiting an answer; and that no application at all can tell apart if
      and only if, besides, the server retained no events. */
  lemma RestoreFaithfulExactly(hf: HashFn, whole: bool, s: ServerState, cp: Checkpoint)
    requires Consistent(s) && IsCheckpointOf(cp, s)
    ensures Indistinguishable(hf, whole, s, Restore(cp, s.setHash)) <==> Restorable(whole, s)
  {
    hide PerformAll, Similar;
    if Restorable(whole, s) {
      forall ops: seq<Op> | forall k :: 0 <= k < |ops| ==> OpOk(whole, ops[k])
        ensures OutsAlike(PerformAll(hf, s, ops).outs, PerformAll(hf, Restore(cp, s.setHash), ops).outs)
      {
        RestoredAnswersAlike(hf, whole, s, cp, ops);
      }
    } else {
      var ops := Telling(hf, whole, s, cp);
    }
  }

  /** What tells the two apart otherwise. */
  lemma Telling(hf: HashFn, whole: bool, s: ServerState, cp: Checkpoint) returns (ops: seq<Op>)
    requires Consistent(s) && IsCheckpointOf(cp, s) && !Restorable(whole, s)
    ensures forall k :: 0 <= k < |ops| ==> OpOk(whole, ops[k])
    ensures !OutsAlike(PerformAll(hf, s, ops).outs, PerformAll(hf, Restore(cp, s.setHash), ops).outs)
  {
    hide PerformAll, OutsAlike;
    var t := Restore(cp, s.setHash);
    RestoreBufferContents(
      ServerState(s.setHash, cp.committedUpto, map[], map[], map[], {}, map[],
                  Resumed(cp.historyHash, cp.eventCount), 0, 0, 0, []), cp.buffer);
    if i :| i in s.awaiting {
      assert i !in t.respBuffer;
      AwaitingTold(hf, s, t, i, Echo());
      ops := [Ask(Probe(i), Echo())];
    } else if k :| k in s.pendingReqs && k > s.committedUpto {
      var x := LeastStaged(s, k);
      ops := StagedTold(hf, s, t, x, Echo());
    } else {
      RetainedTold(hf, s, t);
      ops := [Ask(Probe(s.committedUpto + 1), Measure())];
    }
  }
}
