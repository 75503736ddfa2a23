/** Agreement over whole runs, and what it means for the two endpoints. */
module Runs {
  import opened Messages
  import opened History
  import opened Canon
  import opened Client
  import opened Server
  import opened Protocol
  import opened Safety

  // ---- every step, every run ----

  lemma ClientStepAgrees(hf: HashFn, p: Policy, y: System, st: Step)
    requires Agreement(hf, y) && Enabled(p, y, st)
    requires st.Generate? || st.DeliverResponse? || st.PostReplay?
    ensures Agreement(hf, Apply(hf, y, st))
  {
    match st
    case Generate(payload) =>
      GenerateFrozen(hf, y.client, y.frozen, payload);
      GenerateHistory(hf, y.client, y.frozen, payload);
      GenerateReceipts(hf, y.client, y.frozen, payload);
      GenerateServer(hf, y, payload);
    case DeliverResponse(r) =>
      ReceiveClient(hf, y.client, y.frozen, r);
      ReceiveFrozen(hf, y.frozen, y.client.received, OnResponse(y.client, r).received);
    case PostReplay(from) =>
      BuildReplayOk(hf, y.client, y.frozen, from);
  }

  lemma HandledAgrees(hf: HashFn, y: System, res: Result)
    requires Agreement(hf, y) && ServerOk(hf, res.state, y.frozen)
    requires forall r :: r in res.out && !r.recover ==> ResponseOk(hf, r, y.frozen)
    ensures Agreement(hf, Handled(y, res))
  {
  }

  lemma DeliverAgrees(hf: HashFn, y: System, id: SeqNum, app: AppFn)
    requires Agreement(hf, y) && 1 <= id <= |y.frozen|
    ensures Agreement(hf, Apply(hf, y, DeliverRequest(id, app)))
  {
    hide OnRequest;
    OnRequestOk(hf, y.server, y.frozen, y.client.received, id, app);
    HandledAgrees(hf, y, OnRequest(hf, y.server, y.frozen[id - 1], app));
  }

  lemma StepAgrees(hf: HashFn, p: Policy, y: System, st: Step)
    requires Agreement(hf, y) && Enabled(p, y, st)
    ensures Agreement(hf, Apply(hf, y, st))
  {
    match st
    case DeliverRequest(id, app) =>
      DeliverAgrees(hf, y, id, app);
    case IngestReplay(b) =>
      IngestOk(hf, y.server, y.frozen, y.client.received, b);
    case TakeCheckpoint(cp) =>
      SnapshotOk(hf, y.server, y.frozen, cp);
    case Crash(cp) =>
      RestoreOk(hf, cp, y.frozen, y.server.setHash);
    case _ =>
      ClientStepAgrees(hf, p, y, st);
  }

  lemma {:induction false} RunAgrees(hf: HashFn, p: Policy, ys: seq<System>, sts: seq<Step>, k: nat)
    requires Run(hf, p, ys, sts) && k <= |sts|
    ensures Agreement(hf, ys[k])
  {
    hide Agreement, Apply, Enabled, Init;
    if k == 0 {
      var ch, sh :| ys[0] == Init(hf, ch, sh);
      InitAgrees(hf, ch, sh);
    } else {
      RunAgrees(hf, p, ys, sts, k - 1);
      assert Enabled(p, ys[k - 1], sts[k - 1]);
      StepAgrees(hf, p, ys[k - 1], sts[k - 1]);
    }
  }

  /** Requests are only ever added. */
  lemma {:induction false} FrozenGrows(hf: HashFn, p: Policy, ys: seq<System>, sts: seq<Step>, j: nat, k: nat)
    requires Path(hf, p, ys, sts) && j <= k <= |sts|
    ensures ys[j].frozen <= ys[k].frozen
  {
    hide OnRequest, Ingest, Restore, GenerateRequest, OnResponse;
    if j < k {
      FrozenGrows(hf, p, ys, sts, j, k - 1);
      assert Enabled(p, ys[k - 1], sts[k - 1]);
    }
  }

  /** What agreement says about one state. */
  ghost predicate HistoriesMatch(hf: HashFn, y: System) {
    var s := y.server;
    && s.committedUpto <= |y.frozen| == y.client.nextSeq - 1
    && var cut := Cut(y.frozen, s.committedUpto);
    && cut <= y.client.history.events
    && (s.committedUpto > 0 ==> cut != [] && cut[|cut| - 1] == Event(false, s.committedUpto))
    && s.history.EventCount() == |cut|
    && s.history.curHash == Chain(hf, cut)
    && s.history.events == cut[s.history.baseCount..]
  }

  /** `R<n>` closes the n-th cut. */
  lemma CutEnds(frozen: seq<Request>, n: nat)
    requires 0 < n <= |frozen| && frozen[n - 1].id == n
    ensures Cut(frozen, n) != [] && Cut(frozen, n)[|Cut(frozen, n)| - 1] == Event(false, n)
  {
  }

  lemma AgreementMatches(hf: HashFn, y: System)
    requires Agreement(hf, y)
    ensures HistoriesMatch(hf, y)
  {
    hide Cut, Chain, MessagesOk, TablesOk, OnceOk, ReceiptsOk;
    CutPrefix(y.frozen, y.server.committedUpto, |y.frozen|);
    if y.server.committedUpto > 0 {
      assert RequestOk(hf, y.frozen, y.server.committedUpto - 1, y.client.received);
      CutEnds(y.frozen, y.server.committedUpto);
    }
  }

  /** Failover safety. Whatever crashed, and however old the checkpoint, the server's
      logical history is the client's history cut just after `R<committedUpto>`:
      same events where retained, same length, same hash. */
  lemma FailoverSafety(hf: HashFn, p: Policy, ys: seq<System>, sts: seq<Step>, k: nat)
    requires Run(hf, p, ys, sts) && k <= |sts|
    ensures HistoriesMatch(hf, ys[k])
  {
    hide HistoriesMatch, Agreement, Apply, Enabled, Init;
    RunAgrees(hf, p, ys, sts, k);
    AgreementMatches(hf, ys[k]);
  }

  /** No mismatch callback ever fires, for any hash, and a checkpoint never falls back
      to the zero hash. */
  lemma HashAgreement(hf: HashFn, p: Policy, ys: seq<System>, sts: seq<Step>, k: nat)
    requires Run(hf, p, ys, sts) && k <= |sts|
    ensures
      var y := ys[k];
      && y.client.mismatches == 0 && y.server.mismatches == 0 && y.lostMismatches == 0
      && (forall i :: i in y.server.respBuffer ==> i in y.server.reqHash)
      && (forall i :: i in y.server.respBuffer && i in y.client.reqHash ==>
            SavedHash(y.server, i) == y.client.reqHash[i])
  {
    hide Apply, Enabled, Init, Cut, Represents;
    RunAgrees(hf, p, ys, sts, k);
  }

  /** Each incarnation of the server runs the application at most once per id. */
  lemma AtMostOncePerIncarnation(hf: HashFn, p: Policy, ys: seq<System>, sts: seq<Step>, k: nat)
    requires Run(hf, p, ys, sts) && k <= |sts|
    ensures
      var s := ys[k].server;
      && (forall i :: i in s.appCalls ==> s.appCalls[i] == 1)
      && (forall a, b :: 0 <= a < b < |s.calls| ==> s.calls[a].id != s.calls[b].id)
  {
    hide Apply, Enabled, Init, FrozenOk, ClientOk, MessagesOk, HistoryOk, TablesOk;
    RunAgrees(hf, p, ys, sts, k);
  }
}
