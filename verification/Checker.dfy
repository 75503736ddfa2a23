/** The end-of-run checker, and the theorem that no drained run can fail it. */
module Checker {
  import opened Messages
  import opened History
  import opened Client
  import opened Server
  import opened Protocol
  import opened Safety
  import opened Runs
  import opened Acknowledgements
  import opened CrashFree
  import opened Window
  import opened Progress

  datatype Failure =
    | LongerHistory
    | Divergence(at: nat)
    | FinalHash
    | HashMismatches(count: nat)
    | AppCallCount
    | ProcessedTimes(id: SeqNum)
    | NotCommitted
    | NeverAnswered(id: SeqNum)
    | BufferOver
    | StagingOver
    | AcksOver

  // ---- what the checker asks ----

  ghost predicate SafetyHolds(c: ClientState, s: ServerState, mismatches: nat, hadFailover: bool) {
    && (!hadFailover ==> s.history.events <= c.history.events)
    && c.history.curHash == s.history.curHash
    && mismatches == 0
  }

  ghost predicate OnceHolds(s: ServerState, hadFailover: bool) {
    && (!hadFailover ==> |s.appCalls| == s.committedUpto)
    && (forall i :: i in s.appCalls ==> s.appCalls[i] == 1)
  }

  ghost predicate LivenessHolds(c: ClientState, s: ServerState) {
    && s.committedUpto == c.nextSeq - 1
    && (forall i :: 1 <= i <= c.nextSeq - 1 ==> i in c.received)
  }

  ghost predicate BoundsHold(c: ClientState, s: ServerState, bound: nat) {
    s.maxRespBuffer <= bound && s.maxPending <= bound && c.maxAckNew <= bound
  }

  method Require(cond: bool, f: Failure, sofar: seq<Failure>) returns (failures: seq<Failure>)
    ensures failures == if cond then sofar else sofar + [f]
  {
    failures := if cond then sofar else sofar + [f];
  }

  /** The first index at which two histories differ within their common length. */
  method FirstDivergence(sh: seq<Event>, ch: seq<Event>) returns (at: nat, found: bool)
    ensures found ==> at < |sh| && at < |ch| && sh[at] != ch[at] && sh[..at] == ch[..at]
    ensures !found ==> sh <= ch || ch <= sh
    ensures found ==> !(sh <= ch) && !(ch <= sh)
  {
    var common := if |sh| <= |ch| then |sh| else |ch|;
    for i := 0 to common
      invariant sh[..i] == ch[..i]
    {
      if sh[i] != ch[i] { return i, true; }
    }
    return common, false;
  }

  method CheckHistories(sh: seq<Event>, ch: seq<Event>) returns (failures: seq<Failure>)
    ensures failures == [] <==> sh <= ch
  {
    failures := Require(|sh| <= |ch|, LongerHistory, []);
    var at, found := FirstDivergence(sh, ch);
    if found { failures := failures + [Divergence(at)]; }
  }

  method CheckCounts(calls: map<SeqNum, nat>) returns (failures: seq<Failure>)
    ensures failures == [] <==> forall i :: i in calls ==> calls[i] == 1
  {
    failures := [];
    var rest := calls.Keys;
    while rest != {}
      invariant rest <= calls.Keys
      invariant failures == [] <==> forall i :: i in calls && i !in rest ==> calls[i] == 1
      decreases rest
    {
      var i :| i in rest;
      rest := rest - {i};
      failures := Require(calls[i] == 1, ProcessedTimes(i), failures);
    }
  }

  method CheckAnswered(received: set<SeqNum>, issued: nat) returns (failures: seq<Failure>)
    ensures failures == [] <==> forall i :: 1 <= i <= issued ==> i in received
  {
    failures := [];
    var s := 1;
    while s <= issued
      invariant 1 <= s <= issued + 1
      invariant failures == [] <==> forall i :: 1 <= i < s ==> i in received
    {
      failures := Require(s in received, NeverAnswered(s), failures);
      s := s + 1;
    }
  }

  /** Passes exactly when every property it is meant to test holds. */
  method CheckRun(client: ColorClient, server: ColorServer, mismatches: nat, bound: nat, hadFailover: bool)
    returns (ok: bool, failures: seq<Failure>)
    requires client.nextSeq >= 1
    ensures ok <==> failures == []
    ensures ok <==>
      && SafetyHolds(client.State(), server.State(), mismatches, hadFailover)
      && OnceHolds(server.State(), hadFailover)
      && LivenessHolds(client.State(), server.State())
      && BoundsHold(client.State(), server.State(), bound)
  {
    failures := [];
    if !hadFailover {
      failures := CheckHistories(server.history.events, client.history.events);
    }
    failures := Require(client.history.curHash == server.history.curHash, FinalHash, failures);
    failures := Require(mismatches == 0, HashMismatches(mismatches), failures);
    if !hadFailover {
      failures := Require(|server.appCalls| == server.committedUpto, AppCallCount, failures);
    }
    var counts := CheckCounts(server.appCalls);
    failures := failures + counts;
    var issued := client.nextSeq - 1;
    failures := Require(server.committedUpto == issued, NotCommitted, failures);
    var unanswered := CheckAnswered(client.received, issued);
    failures := failures + unanswered;
    failures := Require(server.maxRespBuffer <= bound, BufferOver, failures);
    failures := Require(server.maxPending <= bound, StagingOver, failures);
    failures := Require(client.maxAckNew <= bound, AcksOver, failures);
    ok := failures == [];
  }

  // ---- no drained run fails it ----

  /** Every crash-free run with nothing outstanding passes, with the window itself as the bound. */
  lemma DrainedRunPasses(hf: HashFn, p: Policy, ys: seq<System>, sts: seq<Step>, k: nat)
    requires p.crashFree && Run(hf, p, ys, sts) && k <= |sts| && ys[k].client.inflight == map[]
    ensures
      var y := ys[k];
      var mismatches := y.client.mismatches + y.server.mismatches + y.lostMismatches;
      && SafetyHolds(y.client, y.server, mismatches, false)
      && OnceHolds(y.server, false)
      && LivenessHolds(y.client, y.server)
      && BoundsHold(y.client, y.server, p.window)
  {
    hide Steady, Good, Agreement, AcksOk, Enabled, Apply, Init;
    var y := ys[k];
    RunGood(hf, p, ys, sts, k);
    SteadyCaught(hf, p, ys, sts, k);
    GoodParts(hf, p, y);
    DrainedAgrees(hf, y);
    TotalOrder(hf, p, ys, sts, k);
    HashAgreement(hf, p, ys, sts, k);
    ExactlyOnce(hf, p, ys, sts, k);
    TightBounds(hf, p, ys, sts, k);
    assert y.server.appCalls.Keys == UpTo(y.server.committedUpto);
    assert |y.server.appCalls.Keys| == y.server.committedUpto;
  }

  lemma SteadyCaught(hf: HashFn, p: Policy, ys: seq<System>, sts: seq<Step>, k: nat)
    requires p.crashFree && Run(hf, p, ys, sts) && k <= |sts|
    ensures Caught(ys[k])
  {
    hide SteadyServer, ClientHistoryOk, ServerOk, MessagesOk, FrozenOk;
    RunAgrees(hf, p, ys, sts, k);
    RunSteady(hf, p, ys, sts, k);
  }

  /** In every run in which no no-op came first, with or without failovers, once nothing is
      outstanding every clause but the bounds holds exactly when the server has committed the
      client's unacknowledged receipts. */
  lemma DrainedFailoverPassesExactly(hf: HashFn, p: Policy, ys: seq<System>, sts: seq<Step>, k: nat)
    requires Run(hf, p, ys, sts) && k <= |sts| && NoOpsRepeat(ys, sts, k) && ys[k].client.inflight == map[]
    ensures
      var y := ys[k];
      var mismatches := y.client.mismatches + y.server.mismatches + y.lostMismatches;
      && SafetyHolds(y.client, y.server, mismatches, true) && OnceHolds(y.server, true)
      && LivenessHolds(y.client, y.server)
      <==> forall i :: i in y.client.pendingNew ==> i <= y.server.committedUpto
  {
    hide Agreement, AcksOk, Enabled, Apply, Init, NoOpsRepeat;
    RunAgrees(hf, p, ys, sts, k);
    AcksOkExactly(hf, p, ys, sts, k);
    HashAgreement(hf, p, ys, sts, k);
    AtMostOncePerIncarnation(hf, p, ys, sts, k);
    if ys[k].server.committedUpto == ys[k].client.nextSeq - 1 {
      CommittedCaught(hf, ys[k]);
    }
    if Caught(ys[k]) {
      DrainedAgrees(hf, ys[k]);
    }
  }

  lemma CommittedCaught(hf: HashFn, y: System)
    requires Agreement(hf, y) && y.server.committedUpto == y.client.nextSeq - 1
    ensures Caught(y)
  {
    hide ServerOk, MessagesOk, FrozenOk;
  }
}
