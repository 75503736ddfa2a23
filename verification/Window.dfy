/** The flow-control window bounds every buffer, tightly, in crash-free runs. */
module Window {
  import opened Messages
  import opened History
  import opened Canon
  import opened Client
  import opened Server
  import opened Protocol
  import opened Safety
  import opened Runs
  import opened Acknowledgements
  import opened CrashFree

  // ---- counting ----

  ghost function UpTo(n: nat): (s: set<SeqNum>)
    ensures forall i :: i in s <==> 1 <= i <= n
    ensures |s| == n
  {
    if n == 0 then {} else UpTo(n - 1) + {n}
  }

  ghost function Elements(s: seq<SeqNum>): set<SeqNum> {
    set i | i in s
  }

  lemma {:induction false} DistinctSize(s: seq<SeqNum>)
    requires Distinct(s)
    ensures |Elements(s)| == |s|
    decreases |s|
  {
    if s != [] {
      var rest := s[..|s| - 1];
      DistinctSize(rest);
      assert s == rest + [s[|s| - 1]];
      assert Elements(s) == Elements(rest) + {s[|s| - 1]};
    }
  }

  lemma {:induction false} SubsetSize(a: set<SeqNum>, b: set<SeqNum>)
    requires a <= b
    ensures |a| <= |b|
    decreases a
  {
    if x :| x in a {
      SubsetSize(a - {x}, b - {x});
    }
  }

  // ---- the client's half, whatever crashes ----

  ghost predicate ClientWithin(w: nat, y: System) {
    && |y.client.pendingNew| + |y.client.inflight| <= w
    && y.client.maxAckNew <= w
    && forall k :: 0 <= k < |y.frozen| ==> |y.frozen[k].ackNew| <= w
  }

  lemma GenerateWithin(hf: HashFn, w: nat, y: System, payload: string)
    requires ClientOk(hf, y.client, y.frozen) && ClientWithin(w, y) && |y.client.inflight| < w
    ensures ClientWithin(w, Apply(hf, y, Generate(payload)))
  {
    hide Cut, HashAt, AppendAll, Represents;
    var c := GenerateRequest(hf, y.client, payload);
    var n := |y.frozen|;
    assert n + 1 !in y.client.inflight;
    assert c.inflight.Keys == y.client.inflight.Keys + {n + 1};
    assert |c.inflight| == |y.client.inflight| + 1;
  }

  lemma ReceiveWithin(hf: HashFn, w: nat, y: System, r: Response)
    requires ClientOk(hf, y.client, y.frozen) && ClientWithin(w, y) && 1 <= r.id <= |y.frozen|
    ensures ClientWithin(w, y.(client := OnResponse(y.client, r)))
  {
    hide AdvanceBase, Represents, Cut;
    if r.id !in y.client.received {
      var c := OnResponse(y.client, r);
      assert r.id in y.client.inflight;
      assert c.inflight.Keys == y.client.inflight.Keys - {r.id};
      assert |c.inflight| == |y.client.inflight| - 1;
    }
  }

  lemma StepClientWithin(hf: HashFn, p: Policy, y: System, st: Step)
    requires Agreement(hf, y) && ClientWithin(p.window, y) && Enabled(p, y, st)
    ensures ClientWithin(p.window, Apply(hf, y, st))
  {
    hide OnRequest, Ingest, Restore, OnResponse, GenerateRequest, ServerOk, ClientOk, FrozenOk;
    match st
    case Generate(payload) => GenerateWithin(hf, p.window, y, payload);
    case DeliverResponse(r) => ReceiveWithin(hf, p.window, y, r);
    case _ =>
  }

  lemma InitClientWithin(hf: HashFn, p: Policy, ys: seq<System>, sts: seq<Step>)
    requires Run(hf, p, ys, sts)
    ensures ClientWithin(p.window, ys[0]) && ys[0].frozen == []
  {
  }

  /** In every run, with or without failovers: what is outstanding and what waits to be
      acknowledged fit the window together, and so does every acknowledgement list. */
  lemma {:induction false} ClientBounds(hf: HashFn, p: Policy, ys: seq<System>, sts: seq<Step>, k: nat)
    requires Run(hf, p, ys, sts) && k <= |sts|
    ensures ClientWithin(p.window, ys[k])
  {
    hide Agreement, ClientWithin, Apply, Enabled, Init;
    if k == 0 {
      InitClientWithin(hf, p, ys, sts);
    } else {
      ClientBounds(hf, p, ys, sts, k - 1);
      RunAgrees(hf, p, ys, sts, k - 1);
      assert Enabled(p, ys[k - 1], sts[k - 1]);
      StepClientWithin(hf, p, ys[k - 1], sts[k - 1]);
    }
  }

  // ---- requests minus responses ----

  /** At every request-terminated prefix of the history. */
  ghost predicate PrefixesOk(w: nat, frozen: seq<Request>) {
    forall k :: 0 <= k <= |frozen| ==> k - |AckLog(frozen, k)| <= w
  }

  /** Outstanding is generated minus received, counted through the acknowledgements. */
  lemma OutstandingCount(hf: HashFn, y: System)
    requires ClientOk(hf, y.client, y.frozen) && AcksOk(y)
    ensures |y.client.inflight| == |y.frozen| - |Receipts(y)|
  {
    var r := Elements(Receipts(y));
    DistinctSize(Receipts(y));
    assert r == y.client.received;
    assert r <= UpTo(|y.frozen|);
    assert y.client.inflight.Keys == UpTo(|y.frozen|) - r;
  }

  lemma PrefixesGrow(w: nat, frozen: seq<Request>, r: Request)
    requires PrefixesOk(w, frozen)
    requires |frozen| + 1 - |AckLog(frozen, |frozen|)| - |r.ackNew| <= w
    ensures PrefixesOk(w, frozen + [r])
  {
    var n, frozen' := |frozen|, frozen + [r];
    forall k | 0 <= k <= n + 1 ensures k - |AckLog(frozen', k)| <= w {
      CutExtend(frozen, frozen', if k <= n then k else n);
      assert k <= n ==> k - |AckLog(frozen, k)| <= w;
    }
  }

  lemma StepPrefixes(hf: HashFn, p: Policy, y: System, st: Step)
    requires Agreement(hf, y) && AcksOk(y) && PrefixesOk(p.window, y.frozen) && Enabled(p, y, st)
    ensures PrefixesOk(p.window, Apply(hf, y, st).frozen)
  {
    hide OnRequest, Ingest, Restore, OnResponse, ServerOk, FrozenOk, ClientOk, AcksOk, PrefixesOk, AppendAll;
    if st.Generate? {
      OutstandingCount(hf, y);
      PrefixesGrow(p.window, y.frozen, FrozenRequest(hf, y.client, st.payload));
    }
  }

  lemma NothingGenerated(w: nat)
    ensures PrefixesOk(w, [])
  {
  }

  /** In every run, with or without failovers, in which no no-op came first: requests minus
      responses stay within the window at every request of the history. */
  lemma {:induction false} PrefixBounds(hf: HashFn, p: Policy, ys: seq<System>, sts: seq<Step>, k: nat)
    requires Run(hf, p, ys, sts) && k <= |sts| && NoOpsRepeat(ys, sts, k)
    ensures PrefixesOk(p.window, ys[k].frozen)
  {
    hide Agreement, AcksOk, PrefixesOk, Apply, Enabled, Init;
    if k == 0 {
      InitClientWithin(hf, p, ys, sts);
      NothingGenerated(p.window);
    } else {
      PrefixBounds(hf, p, ys, sts, k - 1);
      RunAgrees(hf, p, ys, sts, k - 1);
      AcksOkExactly(hf, p, ys, sts, k - 1);
      assert Enabled(p, ys[k - 1], sts[k - 1]);
      StepPrefixes(hf, p, ys[k - 1], sts[k - 1]);
    }
  }

  // ---- the server's half: what is buffered ----

  /** Every buffered response is for a request not acknowledged by the frontier. */
  ghost predicate Unacknowledged(s: ServerState, frozen: seq<Request>)
    requires s.committedUpto <= |frozen|
  {
    forall i :: i in s.respBuffer ==> 1 <= i <= s.committedUpto && i !in AckLog(frozen, s.committedUpto)
  }

  lemma BufferBound(hf: HashFn, y: System, w: nat)
    requires FrozenOk(hf, y.frozen, y.client.received) && AcksLogged(y) && PrefixesOk(w, y.frozen)
    requires y.server.committedUpto <= |y.frozen| && Unacknowledged(y.server, y.frozen)
    ensures |y.server.respBuffer| <= w
  {
    hide HashAt;
    var s := y.server;
    var c := s.committedUpto;
    var log := AckLog(y.frozen, c);
    LogDistinct(y, c);
    DistinctSize(log);
    forall i | i in log ensures i in UpTo(c) {
      AckLogMember(y.frozen, c, i);
      var x :| 0 <= x < c && i in y.frozen[x].ackNew;
      assert RequestOk(hf, y.frozen, x, y.client.received);
    }
    assert s.respBuffer.Keys <= UpTo(c) - Elements(log);
    SubsetSize(s.respBuffer.Keys, UpTo(c) - Elements(log));
    assert Elements(log) <= UpTo(c);
    assert |UpTo(c) - Elements(log)| == c - |log|;
  }

  lemma SteadyUnacknowledged(hf: HashFn, s: ServerState, frozen: seq<Request>)
    requires SteadyServer(hf, s, frozen)
    ensures Unacknowledged(s, frozen)
  {
    hide Represents, Cut, HashAt;
    forall i | i in AckLog(frozen, s.committedUpto) ensures i !in s.respBuffer {
      AckLogMember(frozen, s.committedUpto, i);
      var x :| 0 <= x < s.committedUpto && i in frozen[x].ackNew;
      assert Applied(s.respBuffer, frozen[x].ackNew);
    }
  }

  lemma {:induction false} AckLogPrefix(frozen: seq<Request>, j: nat, k: nat)
    requires j <= k <= |frozen|
    ensures AckLog(frozen, j) <= AckLog(frozen, k)
  {
    if j < k {
      AckLogPrefix(frozen, j, k - 1);
    }
  }

  lemma LogDistinct(y: System, c: nat)
    requires AcksLogged(y) && c <= |y.frozen|
    ensures Distinct(AckLog(y.frozen, c))
  {
    AckLogPrefix(y.frozen, c, |y.frozen|);
    var log := AckLog(y.frozen, c);
    assert forall k :: 0 <= k < |log| ==> log[k] == Receipts(y)[k];
  }

  // ---- and what is staged ----

  /** Staged above the frontier; what a replay overtook stays in the table and is never used. */
  ghost function Live(s: ServerState): set<SeqNum> {
    set k | k in s.pendingReqs && k > s.committedUpto
  }

  /** What is staged is outstanding exactly when none of it was received. Then it fits the window,
      and with the missing request in front of it outstanding too, there is one less. */
  lemma StagingBound(hf: HashFn, y: System)
    requires ClientOk(hf, y.client, y.frozen) && ServerOk(hf, y.server, y.frozen)
    ensures Live(y.server) <= y.client.inflight.Keys <==> Live(y.server) !! y.client.received
    ensures Live(y.server) !! y.client.received ==> |Live(y.server)| <= |y.client.inflight|
    ensures
      var next := y.server.committedUpto + 1;
      Live(y.server) !! y.client.received && Live(y.server) != {} && Settled(y.server) && next !in y.client.received
      ==> |Live(y.server)| < |y.client.inflight|
  {
    hide Represents, Cut, HashAt, OnceOk;
    var s := y.server;
    var live, next := Live(s), s.committedUpto + 1;
    assert forall k :: k in live ==> k in s.pendingReqs;
    assert forall k :: k in live ==> (k in y.client.inflight <==> k !in y.client.received);
    if live !! y.client.received {
      assert live <= y.client.inflight.Keys;
      SubsetSize(live, y.client.inflight.Keys);
      if live != {} && Settled(s) && next !in y.client.received {
        var x :| x in live;
        assert next < x && next in y.client.inflight;
        assert live <= y.client.inflight.Keys - {next};
        SubsetSize(live, y.client.inflight.Keys - {next});
        assert |y.client.inflight.Keys - {next}| == |y.client.inflight| - 1;
      }
    }
  }

  /** With failovers: the buffer fits the window while it holds nothing acknowledged, and staging
      while it holds nothing received. */
  lemma FailoverBounds(hf: HashFn, p: Policy, ys: seq<System>, sts: seq<Step>, k: nat)
    requires Run(hf, p, ys, sts) && k <= |sts|
    ensures
      var y := ys[k];
      && y.server.committedUpto <= |y.frozen|
      && (NoOpsRepeat(ys, sts, k) && Unacknowledged(y.server, y.frozen) ==> |y.server.respBuffer| <= p.window)
      && (Live(y.server) <= y.client.inflight.Keys <==> Live(y.server) !! y.client.received)
      && (Live(y.server) !! y.client.received ==> |Live(y.server)| <= |y.client.inflight| <= p.window)
  {
    hide ClientOk, TablesOk, OnceOk, FrozenOk, MessagesOk, PrefixesOk;
    hide AcksLogged, Unacknowledged, Live, Apply, Enabled, Init, NoOpsRepeat;
    RunAgrees(hf, p, ys, sts, k);
    ClientBounds(hf, p, ys, sts, k);
    RunLogged(hf, p, ys, sts, k);
    StagingBound(hf, ys[k]);
    if NoOpsRepeat(ys, sts, k) && Unacknowledged(ys[k].server, ys[k].frozen) {
      PrefixBounds(hf, p, ys, sts, k);
      BufferBound(hf, ys[k], p.window);
    }
  }

  // ---- crash-free: every bound, and the high-water marks ----

  ghost predicate MarksWithin(w: nat, s: ServerState) {
    s.maxRespBuffer <= w && (s.maxPending > 0 ==> s.maxPending < w)
  }

  ghost predicate TablesWithin(w: nat, s: ServerState) {
    |s.respBuffer| <= w && (|s.pendingReqs| > 0 ==> |s.pendingReqs| < w)
  }

  /** A steady server stages only above its frontier, and what the client received is below it. */
  lemma SteadyTables(hf: HashFn, w: nat, y: System)
    requires Agreement(hf, y) && AcksLogged(y) && Steady(hf, y) && PrefixesOk(w, y.frozen)
    requires |y.client.inflight| <= w
    ensures TablesWithin(w, y.server)
  {
    hide Represents, Cut, HashAt, AcksLogged, PrefixesOk, FrozenOk;
    hide MessagesOk, ClientOk, TablesOk, OnceOk, Unacknowledged, CallsOk;
    SteadyUnacknowledged(hf, y.server, y.frozen);
    BufferBound(hf, y, w);
    StagingBound(hf, y);
    assert Live(y.server) == y.server.pendingReqs.Keys;
  }

  lemma OnRequestTracks(hf: HashFn, s: ServerState, req: Request, app: AppFn, w: nat)
    requires MarksWithin(w, s) && TablesWithin(w, OnRequest(hf, s, req, app).state)
    ensures MarksWithin(w, OnRequest(hf, s, req, app).state)
  {
    CommitLoopMax(hf, Stage(Release(s, req), req), app);
  }

  lemma {:induction false} CommitLoopMax(hf: HashFn, s: ServerState, app: AppFn)
    ensures
      var t := CommitLoop(hf, s, app).state;
      t.maxRespBuffer == s.maxRespBuffer && t.maxPending == s.maxPending
    decreases |s.pendingReqs|
  {
    if s.committedUpto + 1 in s.pendingReqs {
      CommitLoopMax(hf, CommitNext(hf, s, app), app);
    }
  }

  lemma StepMarksWithin(hf: HashFn, p: Policy, w: nat, y: System, st: Step)
    requires p.crashFree && y.replays == {} && MarksWithin(w, y.server) && Enabled(p, y, st)
    requires TablesWithin(w, Apply(hf, y, st).server)
    ensures MarksWithin(w, Apply(hf, y, st).server)
  {
    hide OnRequest, Ingest, Restore, OnResponse, GenerateRequest, MarksWithin, TablesWithin;
    if st.DeliverRequest? {
      OnRequestTracks(hf, y.server, y.frozen[st.id - 1], st.app, w);
    }
  }

  lemma RunTables(hf: HashFn, p: Policy, ys: seq<System>, sts: seq<Step>, k: nat)
    requires p.crashFree && Run(hf, p, ys, sts) && k <= |sts|
    ensures TablesWithin(p.window, ys[k].server) && PrefixesOk(p.window, ys[k].frozen)
    ensures ys[k].replays == {}
  {
    hide Agreement, SteadyServer, Settled, AcksLogged, PrefixesOk, TablesWithin, Apply, Enabled, Init, NoOpsRepeat;
    RunAgrees(hf, p, ys, sts, k);
    RunAcks(hf, p, ys, sts, k);
    RunSteady(hf, p, ys, sts, k);
    ClientBounds(hf, p, ys, sts, k);
    PrefixBounds(hf, p, ys, sts, k);
    SteadyTables(hf, p.window, ys[k]);
  }

  lemma InitMarks(hf: HashFn, p: Policy, ys: seq<System>, sts: seq<Step>)
    requires Run(hf, p, ys, sts)
    ensures MarksWithin(p.window, ys[0].server)
  {
  }

  lemma {:induction false} RunMarks(hf: HashFn, p: Policy, ys: seq<System>, sts: seq<Step>, k: nat)
    requires p.crashFree && Run(hf, p, ys, sts) && k <= |sts|
    ensures MarksWithin(p.window, ys[k].server)
  {
    hide MarksWithin, TablesWithin, Apply, Enabled, Init;
    if k == 0 {
      InitMarks(hf, p, ys, sts);
    } else {
      RunMarks(hf, p, ys, sts, k - 1);
      RunTables(hf, p, ys, sts, k - 1);
      RunTables(hf, p, ys, sts, k);
      assert Enabled(p, ys[k - 1], sts[k - 1]);
      StepMarksWithin(hf, p, p.window, ys[k - 1], sts[k - 1]);
    }
  }

  /** With at most w requests outstanding: at most w responses buffered, fewer than w requests
      staged, at most w acknowledgements per request; the high-water marks say the same of the
      whole run. */
  lemma TightBounds(hf: HashFn, p: Policy, ys: seq<System>, sts: seq<Step>, k: nat)
    requires p.crashFree && Run(hf, p, ys, sts) && k <= |sts|
    ensures
      var y := ys[k];
      var w := p.window;
      && |y.client.inflight| <= w
      && |y.server.respBuffer| <= w && y.server.maxRespBuffer <= w
      && (|y.server.pendingReqs| > 0 ==> |y.server.pendingReqs| < w)
      && (y.server.maxPending > 0 ==> y.server.maxPending < w)
      && y.client.maxAckNew <= w
      && (forall x :: 0 <= x < |y.frozen| ==> |y.frozen[x].ackNew| <= w)
      && (forall x :: 0 <= x <= |y.frozen| ==> x - |AckLog(y.frozen, x)| <= w)
  {
    hide Apply, Enabled, Init;
    ClientBounds(hf, p, ys, sts, k);
    RunTables(hf, p, ys, sts, k);
    RunMarks(hf, p, ys, sts, k);
  }
}
