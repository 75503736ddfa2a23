/** The server state machine: functions on values, then the object refining them. */
module Server {
  import opened Messages
  import opened History
  import opened Canon

  /** The application may answer differently each time it is consulted, so each
      `OnRequest` takes its own function. It sees the committed history. */
  type AppFn = (SeqNum, string, HistoryState) -> string

  datatype AppCall = AppCall(id: SeqNum, payload: string, seen: HistoryState, output: string)

  datatype ServerState = ServerState(
    setHash: bool,
    committedUpto: SeqNum,
    pendingReqs: map<SeqNum, Request>,
    reqHash: map<SeqNum, Hash>,
    respBuffer: map<SeqNum, string>,
    awaiting: set<SeqNum>,
    appCalls: map<SeqNum, nat>,
    history: HistoryState,
    maxRespBuffer: nat,
    maxPending: nat,
    mismatches: nat,       // calls of the hash-mismatch callback
    calls: seq<AppCall>)   // calls of the application, in order

  datatype Result = Result(state: ServerState, out: seq<Response>)

  function InitServer(hf: HashFn, setHash: bool): ServerState {
    ServerState(setHash, 0, map[], map[], map[], {}, map[], Fresh(hf), 0, 0, 0, [])
  }

  /** Every staged request is filed under its own id. */
  ghost predicate Keyed(s: ServerState) {
    forall k :: k in s.pendingReqs ==> s.pendingReqs[k].id == k
  }

  /** The acknowledgement names a response this server has not committed. */
  predicate NeedsRecover(s: ServerState, req: Request) {
    || req.ackBase > s.committedUpto + 1
    || exists k :: 0 <= k < |req.ackNew| && req.ackNew[k] > s.committedUpto
  }

  function RecoverSignal(s: ServerState, req: Request): Response {
    Response(req.id, None, "", false, true, s.history.EventCount())
  }

  function MakeResponse(s: ServerState, id: SeqNum, payload: string, noOp: bool): Response {
    Response(id, if s.setHash && id in s.reqHash then Some(s.reqHash[id]) else None, payload, noOp, false, 0)
  }

  function Released(buffer: map<SeqNum, string>, req: Request): map<SeqNum, string> {
    map i | i in buffer && i >= req.ackBase && i !in req.ackNew :: buffer[i]
  }

  function Bump(calls: map<SeqNum, nat>, id: SeqNum): map<SeqNum, nat> {
    calls[id := if id in calls then calls[id] + 1 else 1]
  }

  function TrackBounds(s: ServerState): ServerState {
    s.(maxRespBuffer := if |s.respBuffer| > s.maxRespBuffer then |s.respBuffer| else s.maxRespBuffer,
       maxPending := if |s.pendingReqs| > s.maxPending then |s.pendingReqs| else s.maxPending)
  }

  /** Answer a request that is already committed. */
  function AnswerCommitted(s: ServerState, req: Request, app: AppFn): Result {
    if req.id in s.respBuffer then
      Result(s, [MakeResponse(s, req.id, s.respBuffer[req.id], false)])
    else if req.id in s.awaiting then
      var resp := app(req.id, req.payload, s.history);
      var s' := s.(respBuffer := s.respBuffer[req.id := resp],
                   awaiting := s.awaiting - {req.id},
                   appCalls := Bump(s.appCalls, req.id),
                   calls := s.calls + [AppCall(req.id, req.payload, s.history, resp)]);
      Result(s', [MakeResponse(s', req.id, resp, false)])
    else
      Result(s, [MakeResponse(s, req.id, "", true)])
  }

  /** Extend the history by one request. */
  function Record(hf: HashFn, s: ServerState, r: Request): ServerState {
    var h := AppendAll(hf, s.history, Block(r));
    s.(history := h,
       reqHash := s.reqHash[r.id := h.curHash],
       mismatches := if r.hash.Some? && s.setHash && r.hash.value != h.curHash
                     then s.mismatches + 1 else s.mismatches,
       committedUpto := r.id)
  }

  /** Run the application on it and retain the response. */
  function Serve(s: ServerState, r: Request, app: AppFn): ServerState {
    var resp := app(r.id, r.payload, s.history);
    s.(appCalls := Bump(s.appCalls, r.id),
       respBuffer := s.respBuffer[r.id := resp],
       calls := s.calls + [AppCall(r.id, r.payload, s.history, resp)])
  }

  function CommitNext(hf: HashFn, s: ServerState, app: AppFn): ServerState
    requires s.committedUpto + 1 in s.pendingReqs
  {
    var r := s.pendingReqs[s.committedUpto + 1];
    Serve(Record(hf, s.(pendingReqs := s.pendingReqs - {s.committedUpto + 1}), r), r, app)
  }

  function CommitLoop(hf: HashFn, s: ServerState, app: AppFn): Result
    decreases |s.pendingReqs|
  {
    if s.committedUpto + 1 !in s.pendingReqs then Result(s, []) else
      var r := s.pendingReqs[s.committedUpto + 1];
      var s' := CommitNext(hf, s, app);
      var rest := CommitLoop(hf, s', app);
      Result(rest.state, [MakeResponse(s', r.id, s'.respBuffer[r.id], false)] + rest.out)
  }

  function Prepend(out: seq<Response>, res: Result): Result {
    Result(res.state, out + res.out)
  }

  lemma CommitLoopTurn(hf: HashFn, s: ServerState, app: AppFn, out: seq<Response>)
    requires s.committedUpto + 1 in s.pendingReqs
    ensures
      var s' := CommitNext(hf, s, app);
      var id := s.pendingReqs[s.committedUpto + 1].id;
      && |s'.pendingReqs| < |s.pendingReqs|
      && Prepend(out, CommitLoop(hf, s, app)) ==
         Prepend(out + [MakeResponse(s', id, s'.respBuffer[id], false)], CommitLoop(hf, s', app))
  {
    hide AppendAll, Serve, Record;
    CommitShrinks(hf, s, app);
    var s' := CommitNext(hf, s, app);
    var id := s.pendingReqs[s.committedUpto + 1].id;
    var first, rest := [MakeResponse(s', id, s'.respBuffer[id], false)], CommitLoop(hf, s', app);
    assert out + (first + rest.out) == out + first + rest.out;
  }

  lemma CommitShrinks(hf: HashFn, s: ServerState, app: AppFn)
    requires s.committedUpto + 1 in s.pendingReqs
    ensures
      var s' := CommitNext(hf, s, app);
      |s'.pendingReqs| < |s.pendingReqs| && s.pendingReqs[s.committedUpto + 1].id in s'.respBuffer
  {
    hide AppendAll;
  }

  lemma CommitLoopStop(hf: HashFn, s: ServerState, app: AppFn)
    requires s.committedUpto + 1 !in s.pendingReqs
    ensures CommitLoop(hf, s, app) == Result(s, [])
  {
  }

  function Stage(s: ServerState, req: Request): ServerState {
    s.(pendingReqs := s.pendingReqs[req.id := req])
  }

  function Release(s: ServerState, req: Request): ServerState {
    s.(respBuffer := Released(s.respBuffer, req))
  }

  function OnRequest(hf: HashFn, s: ServerState, req: Request, app: AppFn): Result {
    if NeedsRecover(s, req) then Result(s, [RecoverSignal(s, req)]) else
      var s1 := Release(s, req);
      var res := if req.id <= s1.committedUpto
                 then AnswerCommitted(s1, req, app)
                 else CommitLoop(hf, Stage(s1, req), app);
      Result(TrackBounds(res.state), res.out)
  }

  function SavedHash(s: ServerState, id: SeqNum): Hash {
    if id in s.reqHash then s.reqHash[id] else 0
  }

  /** A snapshot lists each buffered response once, in any order. */
  ghost predicate IsCheckpointOf(cp: Checkpoint, s: ServerState) {
    && cp.committedUpto == s.committedUpto
    && cp.eventCount == s.history.EventCount()
    && cp.historyHash == s.history.curHash
    && (forall j :: 0 <= j < |cp.buffer| ==>
          && cp.buffer[j].id in s.respBuffer
          && cp.buffer[j].payload == s.respBuffer[cp.buffer[j].id]
          && cp.buffer[j].hash == SavedHash(s, cp.buffer[j].id))
    && (forall j, k :: 0 <= j < k < |cp.buffer| ==> cp.buffer[j].id != cp.buffer[k].id)
    && (forall i :: i in s.respBuffer ==> Lists(cp.buffer, i))
  }

  ghost predicate Lists(buffer: seq<BufferedResponse>, id: SeqNum) {
    exists j :: 0 <= j < |buffer| && buffer[j].id == id
  }

  function RestoreBuffer(s: ServerState, buffer: seq<BufferedResponse>): ServerState
    decreases |buffer|
  {
    if buffer == [] then s else
      var b := buffer[0];
      RestoreBuffer(s.(respBuffer := s.respBuffer[b.id := b.payload],
                       reqHash := s.reqHash[b.id := b.hash]), buffer[1..])
  }

  function Restore(cp: Checkpoint, setHash: bool): ServerState {
    RestoreBuffer(
      ServerState(setHash, cp.committedUpto, map[], map[], map[], {}, map[],
                  Resumed(cp.historyHash, cp.eventCount), 0, 0, 0, []),
      cp.buffer)
  }

  function IngestEvent(hf: HashFn, s: ServerState, e: Event): ServerState {
    var h := Append(hf, s.history, e);
    if e.isResponse then
      s.(history := h, awaiting := s.awaiting - {e.id}, respBuffer := s.respBuffer - {e.id})
    else
      s.(history := h,
         reqHash := s.reqHash[e.id := h.curHash],
         committedUpto := if e.id > s.committedUpto then e.id else s.committedUpto,
         awaiting := s.awaiting + {e.id})
  }

  function IngestEvents(hf: HashFn, s: ServerState, es: seq<Event>): ServerState
    decreases |es|
  {
    if es == [] then s else IngestEvents(hf, IngestEvent(hf, s, es[0]), es[1..])
  }

  function EventsOf(res: seq<ReplayEvent>): (es: seq<Event>)
    ensures |es| == |res|
    ensures forall i :: 0 <= i < |res| ==> es[i] == Event(res[i].isResponse, res[i].id)
  {
    seq(|res|, i requires 0 <= i < |res| => Event(res[i].isResponse, res[i].id))
  }

  /** The part of a replay past what this server already holds. */
  function Unheld(s: ServerState, rp: Replay): seq<ReplayEvent> {
    var have := s.history.EventCount();
    var skip := if have > rp.from then have - rp.from else 0;
    if skip <= |rp.events| then rp.events[skip..] else []
  }

  /** The replay starts within what the server holds, or carries nothing. */
  predicate Gapless(s: ServerState, rp: Replay) {
    rp.from <= s.history.EventCount() || rp.events == []
  }

  function Ingest(hf: HashFn, s: ServerState, rp: Replay): ServerState {
    IngestEvents(hf, s, EventsOf(Unheld(s, rp)))
  }

  lemma {:induction false} IngestConcat(hf: HashFn, s: ServerState, a: seq<Event>, b: seq<Event>)
    ensures IngestEvents(hf, s, a + b) == IngestEvents(hf, IngestEvents(hf, s, a), b)
    decreases |a|
  {
    if a == [] {
      assert a + b == b;
    } else {
      assert (a + b)[1..] == a[1..] + b;
      IngestConcat(hf, IngestEvent(hf, s, a[0]), a[1..], b);
    }
  }

  lemma IngestLast(hf: HashFn, s: ServerState, a: seq<Event>, e: Event)
    ensures IngestEvents(hf, s, a + [e]) == IngestEvent(hf, IngestEvents(hf, s, a), e)
  {
    IngestConcat(hf, s, a, [e]);
    assert IngestEvents(hf, IngestEvents(hf, s, a), [e]) == IngestEvent(hf, IngestEvents(hf, s, a), e);
  }

  class ColorServer {
    const setHash: bool
    const history: History
    var committedUpto: SeqNum
    var pendingReqs: map<SeqNum, Request>
    var reqHash: map<SeqNum, Hash>
    var respBuffer: map<SeqNum, string>
    var awaiting: set<SeqNum>
    var appCalls: map<SeqNum, nat>
    var maxRespBuffer: nat
    var maxPending: nat
    var mismatches: nat
    var calls: seq<AppCall>

    ghost function State(): ServerState
      reads this, history
    {
      ServerState(setHash, committedUpto, pendingReqs, reqHash, respBuffer, awaiting, appCalls,
                  history.State(), maxRespBuffer, maxPending, mismatches, calls)
    }

    constructor (hf: HashFn, setHash: bool)
      ensures history.hf == hf && fresh(history)
      ensures State() == InitServer(hf, setHash)
    {
      this.setHash := setHash;
      history := new History(hf);
      committedUpto, pendingReqs, reqHash, respBuffer, awaiting := 0, map[], map[], map[], {};
      appCalls, maxRespBuffer, maxPending, mismatches, calls := map[], 0, 0, 0, [];
    }

    /** Resume from a checkpoint after a failover. */
    constructor Resume(hf: HashFn, cp: Checkpoint, setHash: bool)
      ensures history.hf == hf && fresh(history) && this.setHash == setHash
      ensures State() == Restore(cp, setHash)
    {
      this.setHash := setHash;
      history := new History.Resume(hf, cp.historyHash, cp.eventCount);
      committedUpto, pendingReqs, reqHash, respBuffer, awaiting := cp.committedUpto, map[], map[], map[], {};
      appCalls, maxRespBuffer, maxPending, mismatches, calls := map[], 0, 0, 0, [];
      new;
      for j := 0 to |cp.buffer|
        invariant RestoreBuffer(State(), cp.buffer[j..]) == Restore(cp, setHash)
        modifies this`respBuffer, this`reqHash
      {
        assert cp.buffer[j..][1..] == cp.buffer[j + 1..];
        var b := cp.buffer[j];
        respBuffer := respBuffer[b.id := b.payload];
        reqHash := reqHash[b.id := b.hash];
      }
    }

    method Recovering(req: Request) returns (needed: bool)
      ensures needed == NeedsRecover(State(), req)
    {
      if req.ackBase > committedUpto + 1 { return true; }
      for k := 0 to |req.ackNew|
        invariant forall j :: 0 <= j < k ==> req.ackNew[j] <= committedUpto
      {
        if req.ackNew[k] > committedUpto { return true; }
      }
      return false;
    }

    function Reply(id: SeqNum, payload: string, noOp: bool): (r: Response)
      reads this, history
      ensures r == MakeResponse(State(), id, payload, noOp)
    {
      Response(id, if setHash && id in reqHash then Some(reqHash[id]) else None, payload, noOp, false, 0)
    }

    /** Drop every buffered response the client has confirmed. */
    method ReleaseAcked(req: Request)
      modifies this`respBuffer
      ensures respBuffer == Released(old(respBuffer), req)
      ensures forall i :: i in respBuffer <==> i in old(respBuffer) && i >= req.ackBase && i !in req.ackNew
      ensures forall i :: i in respBuffer ==> respBuffer[i] == old(respBuffer[i])
    {
      ghost var before := respBuffer;
      var rest := respBuffer.Keys;
      while rest != {}
        invariant rest <= respBuffer.Keys <= before.Keys
        invariant forall i :: i in respBuffer ==> respBuffer[i] == before[i]
        invariant forall i :: i in before ==> (i in respBuffer <==> i in rest || i >= req.ackBase)
        decreases rest
      {
        var i :| i in rest;
        rest := rest - {i};
        if i < req.ackBase { respBuffer := respBuffer - {i}; }
      }
      for k := 0 to |req.ackNew|
        invariant respBuffer.Keys <= before.Keys
        invariant forall i :: i in respBuffer ==> respBuffer[i] == before[i]
        invariant forall i :: i in before ==> (i in respBuffer <==> i >= req.ackBase && i !in req.ackNew[..k])
      {
        respBuffer := respBuffer - {req.ackNew[k]};
        assert req.ackNew[..k + 1] == req.ackNew[..k] + [req.ackNew[k]];
      }
      assert req.ackNew[..|req.ackNew|] == req.ackNew;
    }

    method Track()
      modifies this`maxRespBuffer, this`maxPending
      ensures State() == TrackBounds(old(State()))
    {
      if |respBuffer| > maxRespBuffer { maxRespBuffer := |respBuffer|; }
      if |pendingReqs| > maxPending { maxPending := |pendingReqs|; }
    }

    method RecordRequest(r: Request)
      modifies this, history
      ensures State() == Record(history.hf, old(State()), r)
    {
      var h := history.AppendBlock(r.ackNew, r.id);
      reqHash := reqHash[r.id := h];
      if r.hash.Some? && setHash && r.hash.value != h { mismatches := mismatches + 1; }
      committedUpto := r.id;
    }

    method ServeRequest(r: Request, app: AppFn) returns (resp: Response)
      modifies this
      ensures State() == Serve(old(State()), r, app)
      ensures resp == MakeResponse(State(), r.id, State().respBuffer[r.id], false)
    {
      appCalls := appCalls[r.id := if r.id in appCalls then appCalls[r.id] + 1 else 1];
      var seen := HistoryState(history.events, history.curHash, history.baseCount);
      var output := app(r.id, r.payload, seen);
      calls := calls + [AppCall(r.id, r.payload, seen, output)];
      respBuffer := respBuffer[r.id := output];
      resp := Reply(r.id, output, false);
    }

    /** One turn of the commit loop. */
    method Commit(app: AppFn) returns (resp: Response)
      requires committedUpto + 1 in pendingReqs
      modifies this, history
      ensures State() == CommitNext(history.hf, old(State()), app)
      ensures
        var id := old(pendingReqs[committedUpto + 1].id);
        resp == MakeResponse(State(), id, State().respBuffer[id], false)
    {
      var r := pendingReqs[committedUpto + 1];
      pendingReqs := pendingReqs - {committedUpto + 1};
      RecordRequest(r);
      resp := ServeRequest(r, app);
    }

    method Advance(app: AppFn) returns (out: seq<Response>)
      modifies this, history
      ensures Result(State(), out) == CommitLoop(history.hf, old(State()), app)
    {
      hide CommitLoop, CommitNext;
      out := [];
      ghost var cur := State();
      ghost var whole := CommitLoop(history.hf, cur, app);
      while committedUpto + 1 in pendingReqs
        invariant cur == State()
        invariant whole == Prepend(out, CommitLoop(history.hf, cur, app))
        decreases |pendingReqs|
      {
        CommitLoopTurn(history.hf, cur, app, out);
        var resp := Commit(app);
        cur := CommitNext(history.hf, cur, app);
        out := out + [resp];
      }
      CommitLoopStop(history.hf, cur, app);
    }

    method Answer(req: Request, app: AppFn) returns (out: seq<Response>)
      modifies this
      ensures Result(State(), out) == AnswerCommitted(old(State()), req, app)
    {
      if req.id in respBuffer {
        out := [Reply(req.id, respBuffer[req.id], false)];
      } else if req.id in awaiting {
        var seen := HistoryState(history.events, history.curHash, history.baseCount);
        var resp := app(req.id, req.payload, seen);
        calls := calls + [AppCall(req.id, req.payload, seen, resp)];
        respBuffer := respBuffer[req.id := resp];
        awaiting := awaiting - {req.id};
        appCalls := appCalls[req.id := if req.id in appCalls then appCalls[req.id] + 1 else 1];
        out := [Reply(req.id, resp, false)];
      } else {
        out := [Reply(req.id, "", true)];
      }
    }

    method Handle(req: Request, app: AppFn) returns (out: seq<Response>)
      modifies this, history
      ensures Result(State(), out) == OnRequest(history.hf, old(State()), req, app)
    {
      var needed := Recovering(req);
      if needed {
        return [Response(req.id, None, "", false, true, history.Count())];
      }
      ReleaseAcked(req);
      if req.id <= committedUpto {
        out := Answer(req, app);
      } else {
        pendingReqs := pendingReqs[req.id := req];
        out := Advance(app);
      }
      Track();
    }

    method Snapshot() returns (cp: Checkpoint)
      ensures IsCheckpointOf(cp, State())
    {
      var buffer: seq<BufferedResponse> := [];
      var rest := respBuffer.Keys;
      while rest != {}
        invariant rest <= respBuffer.Keys
        invariant forall j :: 0 <= j < |buffer| ==>
          && buffer[j].id in respBuffer && buffer[j].id !in rest
          && buffer[j].payload == respBuffer[buffer[j].id]
          && buffer[j].hash == SavedHash(State(), buffer[j].id)
        invariant forall j, k :: 0 <= j < k < |buffer| ==> buffer[j].id != buffer[k].id
        invariant forall i :: i in respBuffer ==> i in rest || Lists(buffer, i)
        decreases rest
      {
        var i :| i in rest;
        rest := rest - {i};
        ghost var before := buffer;
        buffer := buffer + [BufferedResponse(i, respBuffer[i], if i in reqHash then reqHash[i] else 0)];
        forall k | k in respBuffer && k !in rest ensures Lists(buffer, k) {
          if k == i {
            assert buffer[|buffer| - 1].id == i;
          } else {
            var j :| 0 <= j < |before| && before[j].id == k;
            assert buffer[j].id == k;
          }
        }
      }
      cp := Checkpoint(committedUpto, history.Count(), history.curHash, buffer);
    }

    method IngestReplay(rp: Replay)
      modifies this, history
      ensures State() == Ingest(history.hf, old(State()), rp)
    {
      var have := history.Count();
      var skip := if have > rp.from then have - rp.from else 0;
      ghost var es := EventsOf(Unheld(State(), rp));
      ghost var done: nat := 0;
      var i := skip;
      while i < |rp.events|
        invariant skip <= i && done == i - skip
        invariant done <= |es|
        invariant skip <= |rp.events| ==> i <= |rp.events| && |es| == |rp.events| - skip
        invariant skip > |rp.events| ==> done == |es|
        invariant IngestEvents(history.hf, State(), es[done..]) == Ingest(history.hf, old(State()), rp)
      {
        assert es[done..][1..] == es[done + 1..];
        Absorb(Event(rp.events[i].isResponse, rp.events[i].id));
        i := i + 1;
        done := done + 1;
      }
    }

    method Absorb(e: Event)
      modifies this, history
      ensures State() == IngestEvent(history.hf, old(State()), e)
    {
      var h := history.AppendEvent(e);
      if e.isResponse {
        awaiting := awaiting - {e.id};
        respBuffer := respBuffer - {e.id};
      } else {
        reqHash := reqHash[e.id := h];
        if e.id > committedUpto { committedUpto := e.id; }
        awaiting := awaiting + {e.id};
      }
    }
  }
}
