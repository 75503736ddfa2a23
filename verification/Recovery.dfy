/** Replays: when ingesting one keeps agreement, why one recovery round suffices,
    and why ingesting a replay again changes nothing. */
module Recovery {
  import opened Messages
  import opened History
  import opened Canon
  import opened Client
  import opened Server
  import opened Protocol
  import opened Safety
  import opened Runs

  // ---- a replay that starts past what the server holds ----

  lemma {:induction false} IngestCounts(hf: HashFn, s: ServerState, es: seq<Event>)
    ensures IngestEvents(hf, s, es).history.EventCount() == s.history.EventCount() + |es|
    ensures IngestEvents(hf, s, es).committedUpto >= s.committedUpto
    decreases |es|
  {
    if es != [] {
      IngestCounts(hf, IngestEvent(hf, s, es[0]), es[1..]);
    }
  }

  lemma {:induction false} IngestStaging(hf: HashFn, s: ServerState, es: seq<Event>)
    ensures IngestEvents(hf, s, es).pendingReqs == s.pendingReqs
    decreases |es|
  {
    if es != [] {
      IngestStaging(hf, IngestEvent(hf, s, es[0]), es[1..]);
    }
  }

  /** `ingest_replay` appends across a gap. It keeps agreement exactly when there is
      none: the replay starts within what the server holds, or carries nothing. */
  lemma IngestAgreesExactlyWithoutGap(
      hf: HashFn, s: ServerState, frozen: seq<Request>, received: set<SeqNum>, b: BuiltReplay)
    requires FrozenOk(hf, frozen, received) && ServerOk(hf, s, frozen) && ReplayOk(b, frozen)
    ensures
      HistoryOk(hf, Ingest(hf, s, b.replay), frozen) <==>
      Gapless(s, b.replay)
  {
    var m := b.generated;
    if b.replay.from <= s.history.EventCount() {
      IngestOk(hf, s, frozen, received, b);
    } else if b.replay.events == [] {
      assert EventsOf(Unheld(s, b.replay)) == [];
    } else {
      var es := EventsOf(b.replay.events);
      var s' := Ingest(hf, s, b.replay);
      assert Unheld(s, b.replay) == b.replay.events;
      IngestCounts(hf, s, es);
      assert s'.history.EventCount() < |Cut(frozen, m)|;
      assert m > 0;
      assert RequestOk(hf, frozen, m - 1, received);
      assert es == es[..|es| - 1] + [Event(false, m)];
      IngestLast(hf, s, es[..|es| - 1], Event(false, m));
      if HistoryOk(hf, s', frozen) {
        CutPrefix(frozen, m, s'.committedUpto);
        assert false;
      }
    }
  }

  // ---- and so does a whole run ----

  lemma MatchMeansHistoryOk(hf: HashFn, y: System)
    requires HistoriesMatch(hf, y)
    ensures HistoryOk(hf, y.server, y.frozen)
  {
    hide Cut, Chain;
  }

  lemma StepMatchesExactly(hf: HashFn, p: Policy, y: System, st: Step)
    requires Agreement(hf, y) && Offered(p, y, st)
    ensures HistoriesMatch(hf, Apply(hf, y, st)) <==> KeepsGapless(y, st)
    ensures KeepsGapless(y, st) ==> Agreement(hf, Apply(hf, y, st))
  {
    hide Agreement, HistoriesMatch, Apply, HistoryOk, Gapless;
    if KeepsGapless(y, st) {
      StepAgrees(hf, p, y, st);
      AgreementMatches(hf, Apply(hf, y, st));
    } else {
      AgreementOfReplay(hf, y, st.built);
      IngestAgreesExactlyWithoutGap(hf, y.server, y.frozen, y.client.received, st.built);
      if HistoriesMatch(hf, Apply(hf, y, st)) {
        MatchMeansHistoryOk(hf, Apply(hf, y, st));
        IngestApplied(hf, y, st.built);
      }
    }
  }

  lemma AgreementOfReplay(hf: HashFn, y: System, b: BuiltReplay)
    requires Agreement(hf, y) && b in y.replays
    ensures FrozenOk(hf, y.frozen, y.client.received) && ServerOk(hf, y.server, y.frozen) && ReplayOk(b, y.frozen)
  {
    hide FrozenOk, ServerOk, ClientOk;
  }

  lemma IngestApplied(hf: HashFn, y: System, b: BuiltReplay)
    ensures
      var z := Apply(hf, y, IngestReplay(b));
      z.server == Ingest(hf, y.server, b.replay) && z.frozen == y.frozen
  {
    hide Ingest;
  }

  lemma {:induction false} GaplessPrefix(hf: HashFn, p: Policy, ys: seq<System>, sts: seq<Step>, k: nat)
    requires AnyRun(hf, p, ys, sts) && k <= |sts|
    requires forall j {:trigger sts[j]} :: 0 <= j < k ==> KeepsGapless(ys[j], sts[j])
    ensures Agreement(hf, ys[k])
  {
    hide Agreement, HistoriesMatch, Apply, Offered, KeepsGapless, Init;
    if k == 0 {
      var ch, sh :| ys[0] == Init(hf, ch, sh);
      InitAgrees(hf, ch, sh);
    } else {
      GaplessPrefix(hf, p, ys, sts, k - 1);
      assert KeepsGapless(ys[k - 1], sts[k - 1]);
      StepMatchesExactly(hf, p, ys[k - 1], sts[k - 1]);
    }
  }

  /** Failover safety over any run at all, whatever replays arrive: the histories match all along
      exactly when no replay is ingested across a gap. */
  lemma {:induction false} FailoverSafetyExactly(hf: HashFn, p: Policy, ys: seq<System>, sts: seq<Step>, k: nat)
    requires AnyRun(hf, p, ys, sts) && k <= |sts|
    ensures
      (forall j :: 0 <= j <= k ==> HistoriesMatch(hf, ys[j])) <==>
      (forall j {:trigger sts[j]} :: 0 <= j < k ==> KeepsGapless(ys[j], sts[j]))
  {
    hide Agreement, HistoriesMatch, Apply, Offered, KeepsGapless, Init;
    if k == 0 {
      GaplessPrefix(hf, p, ys, sts, 0);
      AgreementMatches(hf, ys[0]);
    } else {
      FailoverSafetyExactly(hf, p, ys, sts, k - 1);
      if forall j {:trigger sts[j]} :: 0 <= j < k - 1 ==> KeepsGapless(ys[j], sts[j]) {
        GaplessPrefix(hf, p, ys, sts, k - 1);
        var st := sts[k - 1];
        StepMatchesExactly(hf, p, ys[k - 1], st);
      }
    }
  }

  // ---- one round of recovery is enough ----

  /** The replay a server asks for. */
  function Recovered(hf: HashFn, s: ServerState, c: ClientState): ServerState {
    Ingest(hf, s, BuildReplay(c, s.history.EventCount()))
  }

  lemma OrdinaryOuts(hf: HashFn, out: seq<Response>, frozen: seq<Request>)
    requires forall r :: r in out ==> ResponseOk(hf, r, frozen)
    ensures forall r :: r in out ==> !r.recover
  {
    hide HashAt;
  }

  lemma NoSignal(hf: HashFn, s: ServerState, frozen: seq<Request>, received: set<SeqNum>, id: SeqNum, app: AppFn)
    requires FrozenOk(hf, frozen, received) && ServerOk(hf, s, frozen) && 1 <= id <= |frozen|
    requires !NeedsRecover(s, frozen[id - 1])
    ensures forall r :: r in OnRequest(hf, s, frozen[id - 1], app).out ==> !r.recover
  {
    hide ServerOk, ResponseOk, CommitLoop, AnswerCommitted, NeedsRecover, HashAt;
    var req := frozen[id - 1];
    var s1 := Release(s, req);
    assert RequestOk(hf, frozen, id - 1, received);
    ReleaseOk(hf, s, frozen, req);
    if req.id > s1.committedUpto {
      StageOk(hf, s1, frozen, id);
      CommitLoopOk(hf, Stage(s1, req), frozen, received, app);
      OrdinaryOuts(hf, CommitLoop(hf, Stage(s1, req), app).out, frozen);
    } else {
      AnswerOk(hf, s1, frozen, req, app);
      OrdinaryOuts(hf, AnswerCommitted(s1, req, app).out, frozen);
    }
  }

  /** After the client's replay the server has committed everything generated. No request
      needs recovery any more, and any of them, retried, gets exactly one ordinary reply,
      for its own id. */
  lemma OneShotRecovery(hf: HashFn, c: ClientState, s: ServerState, frozen: seq<Request>, id: SeqNum, app: AppFn)
    requires FrozenOk(hf, frozen, c.received) && ClientOk(hf, c, frozen) && ServerOk(hf, s, frozen)
    requires 1 <= id <= |frozen|
    ensures
      var s' := Recovered(hf, s, c);
      var out := OnRequest(hf, s', frozen[id - 1], app).out;
      && ServerOk(hf, s', frozen) && s'.committedUpto == |frozen|
      && s'.history.curHash == c.history.curHash
      && !NeedsRecover(s', frozen[id - 1])
      && |out| == 1 && out[0].id == id && !out[0].recover
  {
    var from := s.history.EventCount();
    BuildReplayOk(hf, c, frozen, from);
    IngestOk(hf, s, frozen, c.received, BuiltReplay(BuildReplay(c, from), |frozen|));
    assert RequestOk(hf, frozen, id - 1, c.received);
    RepliesOnce(hf, Recovered(hf, s, c), frozen[id - 1], app);
  }

  lemma RepliesOnce(hf: HashFn, s: ServerState, req: Request, app: AppFn)
    requires req.id <= s.committedUpto && req.ackBase <= req.id
    requires forall i :: i in req.ackNew ==> i < req.id
    ensures !NeedsRecover(s, req)
    ensures
      var out := OnRequest(hf, s, req, app).out;
      |out| == 1 && out[0].id == req.id && !out[0].recover
  {
    assert forall k :: 0 <= k < |req.ackNew| ==> req.ackNew[k] in req.ackNew;
  }

  /** What the two deliveries around a recovery round yield. */
  lemma RecoveryRound(
      hf: HashFn, c: ClientState, s: ServerState, frozen: seq<Request>, id: SeqNum, app: AppFn,
      res0: Result, res1: Result)
    requires FrozenOk(hf, frozen, c.received) && ClientOk(hf, c, frozen) && ServerOk(hf, s, frozen)
    requires 1 <= id <= |frozen|
    requires res0 == OnRequest(hf, s, frozen[id - 1], app)
    requires res1 == OnRequest(hf, Recovered(hf, s, c), frozen[id - 1], app)
    ensures NeedsRecover(s, frozen[id - 1]) ==>
      && res0.state == s && |res0.out| == 1 && res0.out[0].recover
      && Recovered(hf, s, c) == Ingest(hf, s, BuildReplay(c, res0.out[0].recoverFrom))
    ensures !NeedsRecover(s, frozen[id - 1]) ==> forall r :: r in res0.out ==> !r.recover
    ensures |res1.out| == 1 && !res1.out[0].recover
  {
    OneShotRecovery(hf, c, s, frozen, id, app);
    if !NeedsRecover(s, frozen[id - 1]) {
      NoSignal(hf, s, frozen, c.received, id, app);
    }
  }

  /** Delivering a request with the recovery round trip resolved inline. Starting from
      agreement, the loop that tolerates eight rounds runs at most one. */
  method DeliverWithRecovery(
      client: ColorClient, server: ColorServer, req: Request, app: AppFn, ghost frozen: seq<Request>)
    returns (responses: seq<Response>, rounds: nat)
    requires client.history != server.history && client.history.hf == server.history.hf
    requires FrozenOk(server.history.hf, frozen, client.received)
    requires ClientOk(server.history.hf, client.State(), frozen)
    requires ServerOk(server.history.hf, server.State(), frozen)
    requires 1 <= req.id <= |frozen| && req == frozen[req.id - 1]
    modifies server, server.history
    ensures rounds == if old(NeedsRecover(server.State(), req)) then 1 else 0
    ensures forall r :: r in responses ==> !r.recover
    ensures
      var s0 := old(server.State());
      var s1 := if NeedsRecover(s0, req) then Recovered(server.history.hf, s0, client.State()) else s0;
      Result(server.State(), responses) == OnRequest(server.history.hf, s1, req, app)
  {
    hide OnRequest, Ingest, ClientOk, ServerOk, FrozenOk;
    ghost var hf := server.history.hf;
    ghost var s0, c := server.State(), client.State();
    ghost var res0 := OnRequest(hf, s0, req, app);
    ghost var res1 := OnRequest(hf, Recovered(hf, s0, c), req, app);
    RecoveryRound(hf, c, s0, frozen, req.id, app, res0, res1);
    responses := server.Handle(req, app);
    rounds := 0;
    while |responses| == 1 && responses[0].recover && rounds < 8
      invariant rounds <= 1 && (rounds == 1 ==> NeedsRecover(s0, req))
      invariant Result(server.State(), responses) == if rounds == 0 then res0 else res1
      decreases 8 - rounds
    {
      var rp := client.ReplayFrom(responses[0].recoverFrom);
      server.IngestReplay(rp);
      responses := server.Handle(req, app);
      rounds := rounds + 1;
    }
  }
}
