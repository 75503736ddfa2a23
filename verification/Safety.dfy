/** Agreement: in every reachable state, after any number of crashes, the server's
    logical history is the client's history cut just after `R<committedUpto>`. */
module Safety {
  import opened Messages
  import opened History
  import opened Canon
  import opened Client
  import opened Server
  import opened Protocol

  // ---- what the client and the messages satisfy ----

  /** A request is numbered by generation order and acknowledges only what was received. */
  ghost predicate RequestOk(hf: HashFn, frozen: seq<Request>, k: nat, received: set<SeqNum>)
    requires k < |frozen|
  {
    var r := frozen[k];
    && r.id == k + 1
    && (r.hash.Some? ==> r.hash.value == HashAt(hf, frozen, k + 1))
    && 1 <= r.ackBase <= k + 1
    && (forall i :: 1 <= i < r.ackBase ==> i in received)
    && (forall i :: i in r.ackNew ==> 1 <= i <= k && i in received)
  }

  ghost predicate FrozenOk(hf: HashFn, frozen: seq<Request>, received: set<SeqNum>) {
    forall k :: 0 <= k < |frozen| ==> RequestOk(hf, frozen, k, received)
  }

  ghost predicate ClientHistoryOk(hf: HashFn, c: ClientState, frozen: seq<Request>) {
    && c.nextSeq == |frozen| + 1
    && Represents(hf, c.history, Cut(frozen, |frozen|)) && c.history.baseCount == 0
    && (forall k :: k in c.reqHash <==> 1 <= k <= |frozen|)
    && (forall k :: k in c.reqHash ==> c.reqHash[k] == HashAt(hf, frozen, k))
    && c.mismatches == 0
  }

  /** `base` is the first id not received; `inflight` is what was generated and not received. */
  ghost predicate ReceiptsOk(c: ClientState, frozen: seq<Request>) {
    && (forall i :: i in c.received ==> 1 <= i <= |frozen|)
    && (forall i :: i in c.pendingNew ==> i in c.received)
    && c.base >= 1 && c.base !in c.received && (forall i :: 1 <= i < c.base ==> i in c.received)
    && (forall i :: i in c.inflight <==> 1 <= i <= |frozen| && i !in c.received)
    && (forall i :: i in c.inflight ==> c.inflight[i] == frozen[i - 1])
  }

  ghost predicate ClientOk(hf: HashFn, c: ClientState, frozen: seq<Request>) {
    ClientHistoryOk(hf, c, frozen) && ReceiptsOk(c, frozen)
  }

  ghost predicate ResponseOk(hf: HashFn, r: Response, frozen: seq<Request>) {
    && 1 <= r.id <= |frozen| && !r.recover
    && (r.hash.Some? ==> r.hash.value == HashAt(hf, frozen, r.id))
  }

  ghost predicate CheckpointOk(hf: HashFn, cp: Checkpoint, frozen: seq<Request>) {
    && cp.committedUpto <= |frozen|
    && cp.eventCount == |Cut(frozen, cp.committedUpto)|
    && cp.historyHash == HashAt(hf, frozen, cp.committedUpto)
    && forall j :: 0 <= j < |cp.buffer| ==>
         1 <= cp.buffer[j].id <= cp.committedUpto && cp.buffer[j].hash == HashAt(hf, frozen, cp.buffer[j].id)
  }

  /** The events a client that had generated `b.generated` requests holds from `from` on. */
  ghost predicate ReplayOk(b: BuiltReplay, frozen: seq<Request>) {
    && b.generated <= |frozen|
    && EventsOf(b.replay.events) == Suffix(Cut(frozen, b.generated), b.replay.from)
  }

  ghost function Suffix(es: seq<Event>, from: nat): seq<Event> {
    if from <= |es| then es[from..] else []
  }

  // ---- what the server satisfies ----

  /** The core of agreement. */
  ghost predicate HistoryOk(hf: HashFn, s: ServerState, frozen: seq<Request>) {
    && s.committedUpto <= |frozen|
    && Represents(hf, s.history, Cut(frozen, s.committedUpto))
  }

  ghost predicate TablesOk(hf: HashFn, s: ServerState, frozen: seq<Request>)
    requires s.committedUpto <= |frozen|
  {
    && (forall k :: k in s.pendingReqs ==> 1 <= k <= |frozen| && s.pendingReqs[k] == frozen[k - 1])
    && (forall k :: k in s.reqHash ==> 1 <= k <= s.committedUpto && s.reqHash[k] == HashAt(hf, frozen, k))
    && (forall i :: i in s.respBuffer ==> i in s.reqHash && i !in s.awaiting)
    && (forall i :: i in s.awaiting ==> i in s.reqHash)
    && s.mismatches == 0
  }

  /** This incarnation of the server never ran the application twice for one id. */
  ghost predicate OnceOk(s: ServerState) {
    && (forall k :: k in s.appCalls ==> k <= s.committedUpto && s.appCalls[k] == 1 && k !in s.awaiting)
    && (forall j :: 0 <= j < |s.calls| ==> s.calls[j].id in s.appCalls)
    && (forall j, k :: 0 <= j < k < |s.calls| ==> s.calls[j].id != s.calls[k].id)
  }

  ghost predicate ServerOk(hf: HashFn, s: ServerState, frozen: seq<Request>) {
    HistoryOk(hf, s, frozen) && TablesOk(hf, s, frozen) && OnceOk(s)
  }

  ghost predicate MessagesOk(hf: HashFn, y: System) {
    && (forall r :: r in y.responses ==> ResponseOk(hf, r, y.frozen))
    && (forall b :: b in y.replays ==> ReplayOk(b, y.frozen))
    && (forall cp :: cp in y.checkpoints ==> CheckpointOk(hf, cp, y.frozen))
  }

  ghost predicate Agreement(hf: HashFn, y: System) {
    && FrozenOk(hf, y.frozen, y.client.received)
    && ClientOk(hf, y.client, y.frozen)
    && ServerOk(hf, y.server, y.frozen)
    && MessagesOk(hf, y)
    && y.lostMismatches == 0
  }

  lemma InitAgrees(hf: HashFn, ch: bool, sh: bool)
    ensures Agreement(hf, Init(hf, ch, sh))
  {
  }

  // ---- generating a request ----

  lemma Stable(hf: HashFn, a: seq<Request>, b: seq<Request>)
    requires |a| <= |b| && a == b[..|a|]
    ensures forall k {:trigger Cut(a, k)} {:trigger Cut(b, k)} :: 0 <= k <= |a| ==> Cut(a, k) == Cut(b, k)
    ensures forall k {:trigger HashAt(hf, a, k)} {:trigger HashAt(hf, b, k)} ::
      0 <= k <= |a| ==> HashAt(hf, a, k) == HashAt(hf, b, k)
    ensures forall k {:trigger AckLog(a, k)} {:trigger AckLog(b, k)} :: 0 <= k <= |a| ==> AckLog(a, k) == AckLog(b, k)
  {
    forall k | 0 <= k <= |a| ensures Cut(a, k) == Cut(b, k) && AckLog(a, k) == AckLog(b, k) {
      CutExtend(a, b, k);
    }
  }

  lemma {:induction false} AppendAllBase(hf: HashFn, h: HistoryState, es: seq<Event>)
    ensures AppendAll(hf, h, es).baseCount == h.baseCount
    decreases |es|
  {
    if es != [] {
      AppendAllBase(hf, Append(hf, h, es[0]), es[1..]);
    }
  }

  lemma GenerateExtendsCut(hf: HashFn, c: ClientState, frozen: seq<Request>, payload: string)
    requires ClientHistoryOk(hf, c, frozen)
    ensures
      var r := FrozenRequest(hf, c, payload);
      var h := AppendAll(hf, c.history, Block(r));
      && Represents(hf, h, Cut(frozen + [r], |frozen| + 1))
      && h.baseCount == 0
      && (r.hash.Some? ==> r.hash.value == HashAt(hf, frozen + [r], |frozen| + 1))
  {
    var r := FrozenRequest(hf, c, payload);
    CutExtend(frozen, frozen + [r], |frozen|);
    AppendAllRepresents(hf, c.history, Cut(frozen, |frozen|), Block(r));
    AppendAllBase(hf, c.history, Block(r));
  }

  /** A request stays as it was when another is generated after it. */
  lemma RequestStays(hf: HashFn, frozen: seq<Request>, r: Request, k: nat, received: set<SeqNum>)
    requires k < |frozen| && RequestOk(hf, frozen, k, received)
    ensures RequestOk(hf, frozen + [r], k, received)
  {
    hide Cut;
    CutExtend(frozen, frozen + [r], k + 1);
  }

  lemma GenerateNewest(hf: HashFn, c: ClientState, frozen: seq<Request>, payload: string)
    requires ClientOk(hf, c, frozen)
    ensures RequestOk(hf, frozen + [FrozenRequest(hf, c, payload)], |frozen|, c.received)
  {
    hide Cut, Represents, AppendAll, HashAt;
    GenerateExtendsCut(hf, c, frozen, payload);
    if c.base > 1 {
      assert c.base - 1 in c.received;
    }
  }

  lemma GenerateFrozen(hf: HashFn, c: ClientState, frozen: seq<Request>, payload: string)
    requires FrozenOk(hf, frozen, c.received) && ClientOk(hf, c, frozen)
    ensures FrozenOk(hf, frozen + [FrozenRequest(hf, c, payload)], c.received)
  {
    hide RequestOk, ClientOk, FrozenRequest;
    var r := FrozenRequest(hf, c, payload);
    var frozen' := frozen + [r];
    forall k | 0 <= k < |frozen'| ensures RequestOk(hf, frozen', k, c.received) {
      if k < |frozen| {
        RequestStays(hf, frozen, r, k, c.received);
      } else {
        GenerateNewest(hf, c, frozen, payload);
      }
    }
  }

  lemma GenerateHistory(hf: HashFn, c: ClientState, frozen: seq<Request>, payload: string)
    requires ClientHistoryOk(hf, c, frozen)
    ensures ClientHistoryOk(hf, GenerateRequest(hf, c, payload), frozen + [FrozenRequest(hf, c, payload)])
  {
    Stable(hf, frozen, frozen + [FrozenRequest(hf, c, payload)]);
    GenerateExtendsCut(hf, c, frozen, payload);
  }

  lemma GenerateReceipts(hf: HashFn, c: ClientState, frozen: seq<Request>, payload: string)
    requires c.nextSeq == |frozen| + 1 && ReceiptsOk(c, frozen)
    ensures ReceiptsOk(GenerateRequest(hf, c, payload), frozen + [FrozenRequest(hf, c, payload)])
  {
  }

  lemma GenerateServer(hf: HashFn, y: System, payload: string)
    requires Agreement(hf, y)
    ensures
      var y' := Apply(hf, y, Generate(payload));
      ServerOk(hf, y'.server, y'.frozen) && MessagesOk(hf, y')
  {
    var y' := Apply(hf, y, Generate(payload));
    Stable(hf, y.frozen, y'.frozen);
  }

  // ---- receiving a response ----

  lemma ReceiveClient(hf: HashFn, c: ClientState, frozen: seq<Request>, r: Response)
    requires ClientOk(hf, c, frozen) && ResponseOk(hf, r, frozen)
    ensures ClientOk(hf, OnResponse(c, r), frozen)
  {
    if r.id !in c.received {
      AdvanceBaseIsFirstMissing(c.received + {r.id}, c.base);
    }
  }

  lemma ReceiveFrozen(hf: HashFn, frozen: seq<Request>, received: set<SeqNum>, received': set<SeqNum>)
    requires FrozenOk(hf, frozen, received) && received <= received'
    ensures FrozenOk(hf, frozen, received')
  {
    forall k | 0 <= k < |frozen| ensures RequestOk(hf, frozen, k, received') {
      assert RequestOk(hf, frozen, k, received);
    }
  }

  // ---- delivering a request ----

  lemma RecordOk(hf: HashFn, s: ServerState, frozen: seq<Request>)
    requires s.committedUpto < |frozen|
    requires HistoryOk(hf, s, frozen) && frozen[s.committedUpto].id == s.committedUpto + 1
    ensures
      var r := frozen[s.committedUpto];
      var h := AppendAll(hf, s.history, Block(r));
      Represents(hf, h, Cut(frozen, r.id)) && h.curHash == HashAt(hf, frozen, r.id)
  {
    AppendAllRepresents(hf, s.history, Cut(frozen, s.committedUpto), Block(frozen[s.committedUpto]));
  }

  lemma CommitOnce(hf: HashFn, s: ServerState, app: AppFn)
    requires OnceOk(s) && s.committedUpto + 1 in s.pendingReqs
    requires s.pendingReqs[s.committedUpto + 1].id == s.committedUpto + 1
    requires forall i :: i in s.awaiting ==> i <= s.committedUpto
    ensures OnceOk(CommitNext(hf, s, app))
  {
    var s' := CommitNext(hf, s, app);
    assert forall j :: 0 <= j < |s.calls| ==> s'.calls[j] == s.calls[j];
  }

  lemma CommitTables(hf: HashFn, s: ServerState, frozen: seq<Request>, app: AppFn)
    requires HistoryOk(hf, s, frozen) && TablesOk(hf, s, frozen)
    requires s.committedUpto < |frozen| && s.committedUpto + 1 in s.pendingReqs
    requires frozen[s.committedUpto].id == s.committedUpto + 1
    requires var h := frozen[s.committedUpto].hash; h.Some? ==> h.value == HashAt(hf, frozen, s.committedUpto + 1)
    ensures
      var s' := CommitNext(hf, s, app);
      HistoryOk(hf, s', frozen) && TablesOk(hf, s', frozen)
  {
    hide Cut, HashAt, Represents, AppendAll, Block;
    RecordOk(hf, s, frozen);
  }

  lemma CommitNextOk(hf: HashFn, s: ServerState, frozen: seq<Request>, received: set<SeqNum>, app: AppFn)
    requires FrozenOk(hf, frozen, received) && ServerOk(hf, s, frozen)
    requires s.committedUpto + 1 in s.pendingReqs
    ensures
      var s' := CommitNext(hf, s, app);
      var id := s.committedUpto + 1;
      && ServerOk(hf, s', frozen)
      && s'.committedUpto == id == s.pendingReqs[id].id && id in s'.respBuffer
      && ResponseOk(hf, MakeResponse(s', id, s'.respBuffer[id], false), frozen)
  {
    hide Cut, HashAt, Represents, AppendAll, Block;
    assert RequestOk(hf, frozen, s.committedUpto, received);
    CommitTables(hf, s, frozen, app);
    CommitOnce(hf, s, app);
  }

  lemma {:induction false} CommitLoopOk(
      hf: HashFn, s: ServerState, frozen: seq<Request>, received: set<SeqNum>, app: AppFn)
    requires FrozenOk(hf, frozen, received) && ServerOk(hf, s, frozen)
    ensures
      var res := CommitLoop(hf, s, app);
      && ServerOk(hf, res.state, frozen)
      && (forall r :: r in res.out ==> ResponseOk(hf, r, frozen))
    decreases |s.pendingReqs|
  {
    hide FrozenOk, ServerOk, ResponseOk;
    if s.committedUpto + 1 in s.pendingReqs {
      CommitNextOk(hf, s, frozen, received, app);
      CommitLoopOk(hf, CommitNext(hf, s, app), frozen, received, app);
    }
  }

  lemma AnswerOk(hf: HashFn, s: ServerState, frozen: seq<Request>, req: Request, app: AppFn)
    requires ServerOk(hf, s, frozen) && 1 <= req.id <= s.committedUpto
    ensures
      var res := AnswerCommitted(s, req, app);
      && ServerOk(hf, res.state, frozen)
      && (forall r :: r in res.out ==> ResponseOk(hf, r, frozen))
  {
    hide Cut, HashAt, Represents;
  }

  lemma ReleaseOk(hf: HashFn, s: ServerState, frozen: seq<Request>, req: Request)
    requires ServerOk(hf, s, frozen)
    ensures ServerOk(hf, Release(s, req), frozen)
  {
    hide Cut, HashAt, Represents;
  }

  lemma StageOk(hf: HashFn, s: ServerState, frozen: seq<Request>, id: SeqNum)
    requires ServerOk(hf, s, frozen) && 1 <= id <= |frozen| && frozen[id - 1].id == id
    ensures ServerOk(hf, Stage(s, frozen[id - 1]), frozen)
  {
    hide Cut, HashAt, Represents;
  }

  lemma TrackOk(hf: HashFn, s: ServerState, frozen: seq<Request>)
    requires ServerOk(hf, s, frozen)
    ensures ServerOk(hf, TrackBounds(s), frozen)
  {
    hide Cut, HashAt, Represents;
  }

  lemma OnRequestOk(hf: HashFn, s: ServerState, frozen: seq<Request>, received: set<SeqNum>, id: SeqNum, app: AppFn)
    requires FrozenOk(hf, frozen, received) && ServerOk(hf, s, frozen) && 1 <= id <= |frozen|
    ensures
      var res := OnRequest(hf, s, frozen[id - 1], app);
      && ServerOk(hf, res.state, frozen)
      && (forall r :: r in res.out && !r.recover ==> ResponseOk(hf, r, frozen))
  {
    hide HashAt, ServerOk, ResponseOk, CommitLoop, AnswerCommitted, Release, Stage, TrackBounds;
    var req := frozen[id - 1];
    assert RequestOk(hf, frozen, id - 1, received);
    if !NeedsRecover(s, req) {
      var s1 := Release(s, req);
      ReleaseOk(hf, s, frozen, req);
      if req.id <= s1.committedUpto {
        AnswerOk(hf, s1, frozen, req, app);
        TrackOk(hf, AnswerCommitted(s1, req, app).state, frozen);
      } else {
        StageOk(hf, s1, frozen, id);
        CommitLoopOk(hf, Stage(s1, req), frozen, received, app);
        TrackOk(hf, CommitLoop(hf, Stage(s1, req), app).state, frozen);
      }
    }
  }

  // ---- ingesting a replay ----

  ghost function AckSet(r: Request): set<SeqNum> {
    set i | i in r.ackNew
  }

  /** What ingesting one whole block amounts to. */
  ghost function IngestedBlock(hf: HashFn, s: ServerState, r: Request): ServerState {
    var h := AppendAll(hf, s.history, Block(r));
    s.(history := h,
       awaiting := s.awaiting - AckSet(r) + {r.id},
       respBuffer := s.respBuffer - AckSet(r),
       reqHash := s.reqHash[r.id := h.curHash],
       committedUpto := if r.id > s.committedUpto then r.id else s.committedUpto)
  }

  lemma IngestUnfolds(hf: HashFn, s: ServerState, es: seq<Event>)
    ensures es == [] ==> IngestEvents(hf, s, es) == s && AppendAll(hf, s.history, es) == s.history
    ensures es != [] ==>
      && IngestEvents(hf, s, es) == IngestEvents(hf, IngestEvent(hf, s, es[0]), es[1..])
      && AppendAll(hf, s.history, es) == AppendAll(hf, Append(hf, s.history, es[0]), es[1..])
  {
  }

  lemma {:induction false} IngestAcks(hf: HashFn, s: ServerState, acks: seq<SeqNum>)
    ensures
      var gone := set i | i in acks;
      IngestEvents(hf, s, AckEvents(acks)) ==
      s.(history := AppendAll(hf, s.history, AckEvents(acks)),
         awaiting := s.awaiting - gone, respBuffer := s.respBuffer - gone)
    decreases |acks|
  {
    hide AppendAll, IngestEvents;
    IngestUnfolds(hf, s, AckEvents(acks));
    if acks == [] {
      assert s.awaiting - (set i | i in acks) == s.awaiting;
      assert s.respBuffer - (set i | i in acks) == s.respBuffer;
    } else {
      var s1 := IngestEvent(hf, s, Event(true, acks[0]));
      assert AckEvents(acks)[1..] == AckEvents(acks[1..]);
      IngestAcks(hf, s1, acks[1..]);
      assert acks == [acks[0]] + acks[1..];
      var gone, rest := set i | i in acks, set i | i in acks[1..];
      assert gone == rest + {acks[0]};
      assert s.awaiting - gone == s1.awaiting - rest;
      assert s.respBuffer - gone == s1.respBuffer - rest;
    }
  }

  lemma IngestBlock(hf: HashFn, s: ServerState, r: Request)
    ensures IngestEvents(hf, s, Block(r)) == IngestedBlock(hf, s, r)
  {
    IngestAcks(hf, s, r.ackNew);
    IngestLast(hf, s, AckEvents(r.ackNew), Event(false, r.id));
    AppendAllLast(hf, s.history, AckEvents(r.ackNew), Event(false, r.id));
  }

  lemma IngestedBlockOk(hf: HashFn, s: ServerState, frozen: seq<Request>, received: set<SeqNum>)
    requires FrozenOk(hf, frozen, received) && ServerOk(hf, s, frozen) && s.committedUpto < |frozen|
    ensures
      var s' := IngestedBlock(hf, s, frozen[s.committedUpto]);
      ServerOk(hf, s', frozen) && s'.committedUpto == s.committedUpto + 1
  {
    hide Cut, HashAt, Represents, AppendAll, Block;
    assert RequestOk(hf, frozen, s.committedUpto, received);
    RecordOk(hf, s, frozen);
  }

  /** The history between two cuts. */
  ghost function Between(frozen: seq<Request>, j: nat, k: nat): seq<Event>
    requires j <= k <= |frozen|
  {
    CutPrefix(frozen, j, k);
    Cut(frozen, k)[|Cut(frozen, j)|..]
  }

  lemma BetweenStep(frozen: seq<Request>, j: nat, k: nat)
    requires j < k <= |frozen|
    ensures Between(frozen, j, k) == Between(frozen, j, k - 1) + Block(frozen[k - 1])
  {
    CutPrefix(frozen, j, k - 1);
  }

  lemma {:induction false} IngestCut(hf: HashFn, s: ServerState, frozen: seq<Request>, received: set<SeqNum>, m: nat)
    requires FrozenOk(hf, frozen, received) && ServerOk(hf, s, frozen) && s.committedUpto <= m <= |frozen|
    ensures
      var s' := IngestEvents(hf, s, Between(frozen, s.committedUpto, m));
      ServerOk(hf, s', frozen) && s'.committedUpto == m
  {
    if s.committedUpto < m {
      IngestCut(hf, s, frozen, received, m - 1);
      var es := Between(frozen, s.committedUpto, m - 1);
      BetweenStep(frozen, s.committedUpto, m);
      IngestConcat(hf, s, es, Block(frozen[m - 1]));
      IngestBlock(hf, IngestEvents(hf, s, es), frozen[m - 1]);
      IngestedBlockOk(hf, IngestEvents(hf, s, es), frozen, received);
    }
  }

  /** Dropping what is held from a suffix of a list leaves what follows it. */
  lemma SuffixBeyond(events: seq<ReplayEvent>, es: seq<Event>, from: nat, have: nat)
    requires EventsOf(events) == Suffix(es, from) && from <= have
    ensures
      var rest := if have - from <= |events| then events[have - from..] else [];
      EventsOf(rest) == Suffix(es, have)
  {
    var skip := have - from;
    assert |EventsOf(events)| == |events|;
    if skip <= |events| {
      assert EventsOf(events[skip..]) == EventsOf(events)[skip..];
      if from <= |es| {
        assert es[from..][skip..] == es[have..];
      }
    }
  }

  lemma UnheldIsBetween(hf: HashFn, s: ServerState, frozen: seq<Request>, b: BuiltReplay)
    requires HistoryOk(hf, s, frozen) && ReplayOk(b, frozen) && b.replay.from <= s.history.EventCount()
    ensures
      EventsOf(Unheld(s, b.replay)) ==
      if s.committedUpto < b.generated then Between(frozen, s.committedUpto, b.generated) else []
  {
    hide Cut, EventsOf;
    var have := s.history.EventCount();
    assert have == |Cut(frozen, s.committedUpto)|;
    SuffixBeyond(b.replay.events, Cut(frozen, b.generated), b.replay.from, have);
    if s.committedUpto < b.generated {
      CutPrefix(frozen, s.committedUpto, b.generated);
    } else {
      CutPrefix(frozen, b.generated, s.committedUpto);
    }
  }

  lemma IngestOk(hf: HashFn, s: ServerState, frozen: seq<Request>, received: set<SeqNum>, b: BuiltReplay)
    requires FrozenOk(hf, frozen, received) && ServerOk(hf, s, frozen) && ReplayOk(b, frozen)
    requires Gapless(s, b.replay)
    ensures
      var s' := Ingest(hf, s, b.replay);
      && ServerOk(hf, s', frozen)
      && (b.replay.events == [] ==> s' == s)
      && (b.replay.from <= s.history.EventCount() ==>
            s'.committedUpto == if s.committedUpto < b.generated then b.generated else s.committedUpto)
  {
    if b.replay.events == [] {
      IngestEmpty(hf, s, b.replay);
    }
    if b.replay.from <= s.history.EventCount() {
      IngestGapless(hf, s, frozen, received, b);
    }
  }

  lemma IngestEmpty(hf: HashFn, s: ServerState, rp: Replay)
    requires rp.events == []
    ensures Ingest(hf, s, rp) == s
  {
    assert EventsOf(Unheld(s, rp)) == [];
  }

  lemma IngestGapless(hf: HashFn, s: ServerState, frozen: seq<Request>, received: set<SeqNum>, b: BuiltReplay)
    requires FrozenOk(hf, frozen, received) && ServerOk(hf, s, frozen) && ReplayOk(b, frozen)
    requires b.replay.from <= s.history.EventCount()
    ensures
      var s' := Ingest(hf, s, b.replay);
      && ServerOk(hf, s', frozen)
      && s'.committedUpto == if s.committedUpto < b.generated then b.generated else s.committedUpto
  {
    UnheldIsBetween(hf, s, frozen, b);
    if s.committedUpto < b.generated {
      IngestCut(hf, s, frozen, received, b.generated);
    }
  }

  lemma BuildReplayOk(hf: HashFn, c: ClientState, frozen: seq<Request>, from: nat)
    requires ClientHistoryOk(hf, c, frozen)
    ensures ReplayOk(BuiltReplay(BuildReplay(c, from), |frozen|), frozen)
  {
    assert EventsOf(BuildReplay(c, from).events) == Suffix(Cut(frozen, |frozen|), from);
  }

  // ---- checkpoint and restore ----

  lemma SnapshotOk(hf: HashFn, s: ServerState, frozen: seq<Request>, cp: Checkpoint)
    requires ServerOk(hf, s, frozen) && IsCheckpointOf(cp, s)
    ensures CheckpointOk(hf, cp, frozen)
  {
  }

  lemma {:induction false} RestoreBufferOk(
      hf: HashFn, s: ServerState, frozen: seq<Request>, buffer: seq<BufferedResponse>)
    requires ServerOk(hf, s, frozen) && s.awaiting == {}
    requires forall j :: 0 <= j < |buffer| ==>
      1 <= buffer[j].id <= s.committedUpto && buffer[j].hash == HashAt(hf, frozen, buffer[j].id)
    ensures ServerOk(hf, RestoreBuffer(s, buffer), frozen)
    decreases |buffer|
  {
    hide Cut, HashAt, Represents;
    if buffer != [] {
      var b := buffer[0];
      var s' := s.(respBuffer := s.respBuffer[b.id := b.payload], reqHash := s.reqHash[b.id := b.hash]);
      assert TablesOk(hf, s', frozen);
      RestoreBufferOk(hf, s', frozen, buffer[1..]);
    }
  }

  lemma RestoreOk(hf: HashFn, cp: Checkpoint, frozen: seq<Request>, setHash: bool)
    requires CheckpointOk(hf, cp, frozen)
    ensures ServerOk(hf, Restore(cp, setHash), frozen)
  {
    var s := ServerState(setHash, cp.committedUpto, map[], map[], map[], {}, map[],
                         Resumed(cp.historyHash, cp.eventCount), 0, 0, 0, []);
    assert ServerOk(hf, s, frozen);
    RestoreBufferOk(hf, s, frozen, cp.buffer);
  }
}
