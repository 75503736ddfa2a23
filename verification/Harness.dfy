/** The simulation harness over the real client and server objects. Whatever the random
    generator, the links and the clock decide, the objects go through a run of the protocol's
    transition system, so everything proved of runs holds of them. */
module Harness {
  import opened Messages
  import opened History
  import opened Canon
  import opened Client
  import opened Server
  import opened Protocol
  import opened Safety
  import opened Runs
  import opened Acknowledgements
  import opened CrashFree
  import opened Window
  import opened Recovery
  import opened Progress
  import opened Reachability
  import opened Checker

  /** One choice of the simulation: a request arrives or times out, a message in transit is lost,
      copied or due, the checkpoint is refreshed, the server fails over. */
  datatype Decision =
    | Arrive(payload: string)
    | Timeout(id: SeqNum)
    | LoseRequest(at: nat)
    | CopyRequest(at: nat)
    | RequestDue(at: nat, app: AppFn)
    | LoseResponse(at: nat)
    | CopyResponse(at: nat)
    | ResponseDue(at: nat)
    | Refresh
    | Failover

  function Without<T>(s: seq<T>, at: nat): seq<T>
    requires at < |s|
  {
    s[..at] + s[at + 1..]
  }

  /** What a simulation holds. */
  datatype World = World(
    client: ClientState,
    server: ServerState,
    c2s: seq<Request>,
    s2c: seq<Response>,
    lastCheckpoint: Checkpoint,
    failoversDone: nat,
    lost: nat)               // mismatch callbacks of servers since replaced

  /** What each choice does; one that does not apply changes nothing. */
  ghost predicate Decided(hf: HashFn, parallel: nat, failovers: nat, w: World, d: Decision, w': World) {
    match d
    case Arrive(payload) =>
      w' == if |w.client.inflight| >= parallel then w else
        w.(client := GenerateRequest(hf, w.client, payload), c2s := w.c2s + [FrozenRequest(hf, w.client, payload)])
    case Timeout(id) => w' == if id in w.client.inflight then w.(c2s := w.c2s + [w.client.inflight[id]]) else w
    case LoseRequest(at) => w' == if at < |w.c2s| then w.(c2s := Without(w.c2s, at)) else w
    case CopyRequest(at) => w' == if at < |w.c2s| then w.(c2s := w.c2s + [w.c2s[at]]) else w
    case RequestDue(at, app) =>
      if at >= |w.c2s| then w' == w else
        var s1 := if NeedsRecover(w.server, w.c2s[at]) then Recovered(hf, w.server, w.client) else w.server;
        var res := OnRequest(hf, s1, w.c2s[at], app);
        w' == w.(c2s := Without(w.c2s, at), server := res.state, s2c := w.s2c + res.out)
    case LoseResponse(at) => w' == if at < |w.s2c| then w.(s2c := Without(w.s2c, at)) else w
    case CopyResponse(at) => w' == if at < |w.s2c| then w.(s2c := w.s2c + [w.s2c[at]]) else w
    case ResponseDue(at) =>
      w' == if at >= |w.s2c| then w else
        w.(s2c := Without(w.s2c, at), client := OnResponse(w.client, w.s2c[at]))
    case Refresh =>
      IsCheckpointOf(w'.lastCheckpoint, w.server) && w' == w.(lastCheckpoint := w'.lastCheckpoint)
    case Failover =>
      w' == if w.failoversDone >= failovers then w else
        w.(server := Restore(w.lastCheckpoint, w.server.setHash), failoversDone := w.failoversDone + 1,
           lost := w.lost + w.server.mismatches)
  }

  // ---- deliveries as steps of the system ----

  lemma GeneratedId(hf: HashFn, y: System, payload: string)
    requires Agreement(hf, y)
    ensures FrozenRequest(hf, y.client, payload).id == |y.frozen| + 1
  {
  }

  lemma OutstandingIsFrozen(hf: HashFn, y: System, id: SeqNum)
    requires Agreement(hf, y) && id in y.client.inflight
    ensures 1 <= id <= |y.frozen| && y.client.inflight[id] == y.frozen[id - 1] && y.frozen[id - 1].id == id
  {
    hide ClientHistoryOk, ServerOk, MessagesOk;
    assert RequestOk(hf, y.frozen, id - 1, y.client.received);
  }

  /** A delivery with its recovery resolved inline, as steps of the system. */
  lemma DeliveryPath(hf: HashFn, p: Policy, y: System, id: SeqNum, app: AppFn)
    returns (zs: seq<System>, more: seq<Step>)
    requires Agreement(hf, y) && 1 <= id <= |y.frozen|
    ensures Path(hf, p, zs, more) && zs[0] == y
    ensures
      var s1 := if NeedsRecover(y.server, y.frozen[id - 1]) then Recovered(hf, y.server, y.client) else y.server;
      var res := OnRequest(hf, s1, y.frozen[id - 1], app);
      var z := zs[|more|];
      && z.client == y.client && z.frozen == y.frozen && z.checkpoints == y.checkpoints
      && z.lostMismatches == y.lostMismatches && z.server == res.state
      && y.responses <= z.responses && (forall r :: r in res.out && !r.recover ==> r in z.responses)
  {
    hide Agreement, OnRequest, NeedsRecover, Recovered;
    var d := Step.DeliverRequest(id, app);
    if NeedsRecover(y.server, y.frozen[id - 1]) {
      var a, sa := RecoverPath(hf, p, y, id, app);
      OneStep(hf, p, a[3], d);
      PathConcat(hf, p, a, sa, [a[3], Apply(hf, a[3], d)], [d]);
      zs, more := a + [a[3], Apply(hf, a[3], d)][1..], sa + [d];
    } else {
      OneStep(hf, p, y, d);
      zs, more := [y, Apply(hf, y, d)], [d];
    }
  }

  lemma Refreshes(hf: HashFn, p: Policy, y: System, cp: Checkpoint)
    requires Reachable(hf, p, y) && !p.quiescent && IsCheckpointOf(cp, y.server)
    ensures Reachable(hf, p, y.(checkpoints := y.checkpoints + {cp}))
  {
    hide Reachable, IsCheckpointOf;
    StepReachable(hf, p, y, TakeCheckpoint(cp));
  }

  lemma RefreshDecided(hf: HashFn, parallel: nat, failovers: nat, w: World, cp: Checkpoint)
    requires IsCheckpointOf(cp, w.server)
    ensures Decided(hf, parallel, failovers, w, Refresh, w.(lastCheckpoint := cp))
  {
    hide IsCheckpointOf;
  }

  // ---- the simulation ----

  class Simulation {
    const hf: HashFn
    const parallel: nat
    const failovers: nat
    var client: ColorClient
    var server: ColorServer
    var c2s: seq<Request>
    var s2c: seq<Response>
    var lastCheckpoint: Checkpoint
    var failoversDone: nat
    var lost: nat                    // mismatch callbacks of servers since replaced
    ghost var now: System            // where the run is

    ghost function Rules(): Policy {
      Policy(parallel, failovers == 0, false)
    }

    /** The objects are in this state, and the links carry only what was sent. */
    ghost predicate Mirrors(y: System)
      reads this, client, client.history, server, server.history
    {
      && client.history != server.history && client.history.hf == hf && server.history.hf == hf
      && server.setHash && y.client == client.State() && y.server == server.State() && y.lostMismatches == lost
      && lastCheckpoint in y.checkpoints
      && (forall k :: 0 <= k < |c2s| ==> 1 <= c2s[k].id <= |y.frozen| && c2s[k] == y.frozen[c2s[k].id - 1])
      && (forall k :: 0 <= k < |s2c| ==> s2c[k] in y.responses)
    }

    ghost predicate Valid()
      reads this, client, client.history, server, server.history
    {
      failoversDone <= failovers && Reachable(hf, Rules(), now) && Mirrors(now)
    }

    constructor (hf: HashFn, parallel: nat, failovers: nat)
      ensures Valid() && this.hf == hf && this.parallel == parallel && this.failovers == failovers
      ensures fresh(client) && fresh(client.history) && fresh(server) && fresh(server.history)
      ensures View() == Started(hf, lastCheckpoint) && IsCheckpointOf(lastCheckpoint, server.State())
    {
      hide Reachable, IsCheckpointOf;
      this.hf, this.parallel, this.failovers := hf, parallel, failovers;
      var c := new ColorClient(hf, true);
      var s := new ColorServer(hf, true);
      var cp := s.Snapshot();
      client, server, lastCheckpoint := c, s, cp;
      c2s, s2c, failoversDone, lost := [], [], 0, 0;
      now := Init(hf, true, true);
      new;
      InitReachable(hf, Rules(), true, true);
      StepReachable(hf, Rules(), now, TakeCheckpoint(cp));
      now := Apply(hf, now, TakeCheckpoint(cp));
    }

    ghost function View(): World
      reads this, client, client.history, server, server.history
    {
      World(client.State(), server.State(), c2s, s2c, lastCheckpoint, failoversDone, lost)
    }

    method NewRequest(payload: string)
      requires Valid()
      modifies this`now, this`c2s, client, client.history
      ensures Valid() && Decided(hf, parallel, failovers, old(View()), Arrive(payload), View())
    {
      hide Reachable, Agreement, FrozenRequest, GenerateRequest;
      hide OnRequest, NeedsRecover, Recovered, OnResponse, Restore;
      var out := client.Outstanding();
      if |out| < parallel {
        ReachableAgrees(hf, Rules(), now);
        GeneratedId(hf, now, payload);
        StepReachable(hf, Rules(), now, Generate(payload));
        now := Apply(hf, now, Generate(payload));
        var r := client.Generate(payload);
        c2s := c2s + [r];
      }
    }

    method Retransmit(id: SeqNum)
      requires Valid()
      modifies this`c2s
      ensures Valid() && Decided(hf, parallel, failovers, old(View()), Timeout(id), View())
    {
      hide Reachable, Agreement;
      if id in client.inflight {
        ReachableAgrees(hf, Rules(), now);
        OutstandingIsFrozen(hf, now, id);
        c2s := c2s + [client.inflight[id]];
      }
    }

    /** Hand a request to the server, with its recovery. */
    method HandOver(req: Request, app: AppFn) returns (responses: seq<Response>)
      requires Valid() && 1 <= req.id <= |now.frozen| && req == now.frozen[req.id - 1]
      modifies this`now, server, server.history
      ensures Valid() && now.frozen == old(now.frozen) && client.State() == old(client.State())
      ensures forall k :: 0 <= k < |responses| ==> responses[k] in now.responses
      ensures
        var s0 := old(server.State());
        var s1 := if NeedsRecover(s0, req) then Recovered(hf, s0, client.State()) else s0;
        Result(server.State(), responses) == OnRequest(hf, s1, req, app)
    {
      hide Reachable, Agreement, OnRequest, NeedsRecover, Recovered;
      ReachableAgrees(hf, Rules(), now);
      AgreementParts(hf, now);
      ghost var zs, more := DeliveryPath(hf, Rules(), now, req.id, app);
      PathReachable(hf, Rules(), zs, more);
      now := zs[|more|];
      var rounds;
      responses, rounds := DeliverWithRecovery(client, server, req, app, now.frozen);
    }

    method DeliverRequest(at: nat, app: AppFn)
      requires Valid() && at < |c2s|
      modifies this`now, this`c2s, this`s2c, server, server.history
      ensures Valid() && Decided(hf, parallel, failovers, old(View()), RequestDue(at, app), View())
    {
      hide Reachable, Agreement, OnRequest, NeedsRecover;
      hide Recovered, GenerateRequest, FrozenRequest, OnResponse, Restore;
      var req := c2s[at];
      c2s := Without(c2s, at);
      var responses := HandOver(req, app);
      s2c := s2c + responses;
    }

    method DeliverResponse(at: nat)
      requires Valid() && at < |s2c|
      modifies this`now, this`s2c, client
      ensures Valid() && Decided(hf, parallel, failovers, old(View()), ResponseDue(at), View())
    {
      hide Reachable, Agreement, OnResponse;
      var resp := s2c[at];
      s2c := Without(s2c, at);
      StepReachable(hf, Rules(), now, Step.DeliverResponse(resp));
      now := Apply(hf, now, Step.DeliverResponse(resp));
      var _ := client.Receive(resp);
    }

    method RefreshCheckpoint()
      requires Valid()
      modifies this`now, this`lastCheckpoint
      ensures Valid() && Decided(hf, parallel, failovers, old(View()), Refresh, View())
    {
      hide Reachable, IsCheckpointOf, Decided;
      var cp := server.Snapshot();
      Refreshes(hf, Rules(), now, cp);
      RefreshDecided(hf, parallel, failovers, View(), cp);
      now, lastCheckpoint := now.(checkpoints := now.checkpoints + {cp}), cp;
    }

    /** Crash, then restart from the last checkpoint. */
    method Replace()
      requires Valid() && failoversDone < failovers
      modifies this`now, this`server, this`failoversDone, this`lost
      ensures Valid() && fresh(server) && fresh(server.history)
      ensures server.State() == Restore(lastCheckpoint, true) && client.State() == old(client.State())
      ensures failoversDone == old(failoversDone) + 1 && lost == old(lost + server.mismatches)
    {
      hide Reachable, Restore;
      StepReachable(hf, Rules(), now, Crash(lastCheckpoint));
      now := Apply(hf, now, Crash(lastCheckpoint));
      lost := lost + server.mismatches;
      server := new ColorServer.Resume(hf, lastCheckpoint, true);
      failoversDone := failoversDone + 1;
    }

    method FailOver()
      requires Valid()
      modifies this`now, this`server, this`failoversDone, this`lost
      ensures Valid() && Decided(hf, parallel, failovers, old(View()), Failover, View())
      ensures server == old(server) || (fresh(server) && fresh(server.history))
    {
      hide Reachable, Restore;
      if failoversDone < failovers {
        Replace();
      }
    }

    /** What the links do on their own. */
    method Disturb(d: Decision)
      requires Valid() && (d.LoseRequest? || d.CopyRequest? || d.LoseResponse? || d.CopyResponse?)
      modifies this`c2s, this`s2c
      ensures Valid() && Decided(hf, parallel, failovers, old(View()), d, View())
    {
      hide Reachable, FrozenRequest, GenerateRequest, OnRequest, NeedsRecover, Recovered, OnResponse, Restore;
      match d
      case LoseRequest(at) => if at < |c2s| { c2s := Without(c2s, at); }
      case CopyRequest(at) => if at < |c2s| { c2s := c2s + [c2s[at]]; }
      case LoseResponse(at) => if at < |s2c| { s2c := Without(s2c, at); }
      case CopyResponse(at) => if at < |s2c| { s2c := s2c + [s2c[at]]; }
    }

    method Decide(d: Decision)
      requires Valid()
      modifies this, client, client.history, server, server.history
      ensures Valid() && Decided(hf, parallel, failovers, old(View()), d, View())
      ensures client == old(client)
      ensures server == old(server) || (fresh(server) && fresh(server.history))
    {
      hide Mirrors, Reachable, Restore, OnRequest, Recovered, OnResponse, NeedsRecover, GenerateRequest, FrozenRequest;
      match d
      case Arrive(payload) => NewRequest(payload);
      case Timeout(id) => Retransmit(id);
      case RequestDue(at, app) => if at < |c2s| { DeliverRequest(at, app); }
      case ResponseDue(at) => if at < |s2c| { DeliverResponse(at); }
      case Refresh => RefreshCheckpoint();
      case Failover => FailOver();
      case _ => Disturb(d);
    }
  }

  lemma AgreementParts(hf: HashFn, y: System)
    requires Agreement(hf, y)
    ensures FrozenOk(hf, y.frozen, y.client.received) && ClientOk(hf, y.client, y.frozen)
    ensures ServerOk(hf, y.server, y.frozen)
  {
    hide FrozenOk, ClientOk, ServerOk;
  }

  // ---- one whole seeded run ----

  ghost function Mismatches(y: System): nat {
    y.client.mismatches + y.server.mismatches + y.lostMismatches
  }

  /** Whatever state a run ends in, once everything issued is committed the safety and
      exactly-once checks cannot fail. */
  lemma CommittedIsSafe(hf: HashFn, p: Policy, y: System)
    requires Reachable(hf, p, y) && y.server.committedUpto == y.client.nextSeq - 1
    ensures SafetyHolds(y.client, y.server, Mismatches(y), !p.crashFree)
    ensures OnceHolds(y.server, !p.crashFree)
  {
    hide Steady, AcksOk, Enabled, Apply, Init, HistoriesMatch;
    var ys, sts :| EndsIn(hf, p, ys, sts, y);
    var k := |sts|;
    RunAgrees(hf, p, ys, sts, k);
    FailoverSafety(hf, p, ys, sts, k);
    SameHash(hf, y);
    HashAgreement(hf, p, ys, sts, k);
    AtMostOncePerIncarnation(hf, p, ys, sts, k);
    if p.crashFree {
      TotalOrder(hf, p, ys, sts, k);
      ExactlyOnce(hf, p, ys, sts, k);
      assert y.server.appCalls.Keys == UpTo(y.server.committedUpto);
      assert |y.server.appCalls.Keys| == y.server.committedUpto;
    }
  }

  lemma SameHash(hf: HashFn, y: System)
    requires Agreement(hf, y) && HistoriesMatch(hf, y) && y.server.committedUpto == y.client.nextSeq - 1
    ensures y.server.history.curHash == y.client.history.curHash
  {
    hide Cut, Chain, ServerOk, MessagesOk, FrozenOk, ReceiptsOk;
  }

  /** So liveness implies them: only liveness and the bounds are left to chance. */
  lemma SafetyNeverFails(hf: HashFn, p: Policy, y: System)
    requires Reachable(hf, p, y)
    ensures y.client.nextSeq >= 1
    ensures LivenessHolds(y.client, y.server) ==>
      SafetyHolds(y.client, y.server, Mismatches(y), !p.crashFree) && OnceHolds(y.server, !p.crashFree)
  {
    hide Reachable, SafetyHolds, OnceHolds;
    ReachableAgrees(hf, p, y);
    if y.server.committedUpto == y.client.nextSeq - 1 {
      CommittedIsSafe(hf, p, y);
    }
  }

  lemma DrainedPasses(hf: HashFn, p: Policy, y: System, bound: nat)
    requires p.crashFree && Reachable(hf, p, y) && y.client.inflight == map[] && bound >= p.window
    ensures LivenessHolds(y.client, y.server) && BoundsHold(y.client, y.server, bound)
  {
    hide Run;
    var ys, sts :| EndsIn(hf, p, ys, sts, y);
    DrainedRunPasses(hf, p, ys, sts, |sts|);
  }

  ghost function Started(hf: HashFn, cp: Checkpoint): World {
    World(InitClient(hf, true), InitServer(hf, true), [], [], cp, 0, 0)
  }

  /** The decisions were carried out one after another from the start. */
  ghost predicate Played(hf: HashFn, parallel: nat, failovers: nat, decisions: seq<Decision>, ws: seq<World>) {
    && |ws| == |decisions| + 1
    && ws[0] == Started(hf, ws[0].lastCheckpoint) && IsCheckpointOf(ws[0].lastCheckpoint, ws[0].server)
    && forall k {:trigger decisions[k]} :: 0 <= k < |decisions| ==>
         Decided(hf, parallel, failovers, ws[k], decisions[k], ws[k + 1])
  }

  lemma PlayOn(hf: HashFn, parallel: nat, failovers: nat, ds: seq<Decision>, ws: seq<World>, d: Decision, w: World)
    requires Played(hf, parallel, failovers, ds, ws) && Decided(hf, parallel, failovers, ws[|ds|], d, w)
    ensures Played(hf, parallel, failovers, ds + [d], ws + [w])
  {
    hide Decided, IsCheckpointOf, Started;
  }

  method Play(hf: HashFn, parallel: nat, failovers: nat, decisions: seq<Decision>)
    returns (sim: Simulation, ghost ws: seq<World>)
    ensures sim.Valid() && sim.hf == hf && sim.parallel == parallel && sim.failovers == failovers
    ensures Played(hf, parallel, failovers, decisions, ws) && ws[|decisions|] == sim.View()
  {
    hide Reachable, Decided, Started, IsCheckpointOf;
    sim := new Simulation(hf, parallel, failovers);
    ws := [sim.View()];
    for i := 0 to |decisions|
      invariant fresh(sim) && fresh(sim.client) && fresh(sim.client.history)
      invariant fresh(sim.server) && fresh(sim.server.history)
      invariant sim.Valid() && sim.hf == hf && sim.parallel == parallel && sim.failovers == failovers
      invariant Played(hf, parallel, failovers, decisions[..i], ws) && ws[i] == sim.View()
    {
      sim.Decide(decisions[i]);
      PlayOn(hf, parallel, failovers, decisions[..i], ws, decisions[i], sim.View());
      ws := ws + [sim.View()];
      assert decisions[..i + 1] == decisions[..i] + [decisions[i]];
    }
    assert decisions[..|decisions|] == decisions;
  }

  /** One run and its verdict, for any decisions at all. The verdict is about liveness and bounds
      only: nothing the network or the failovers do can break safety or exactly-once. Without
      failovers a run that ends with nothing outstanding always passes. */
  method RunOne(hf: HashFn, parallel: nat, failovers: nat, bound: nat, decisions: seq<Decision>)
    returns (ok: bool, client: ColorClient, server: ColorServer, ghost ws: seq<World>)
    ensures Played(hf, parallel, failovers, decisions, ws)
    ensures client.State() == ws[|decisions|].client && server.State() == ws[|decisions|].server
    ensures ok <==> LivenessHolds(client.State(), server.State()) && BoundsHold(client.State(), server.State(), bound)
    ensures failovers == 0 && bound >= parallel && client.inflight == map[] ==> ok
  {
    hide Reachable, SafetyHolds, OnceHolds, LivenessHolds, BoundsHold, Decided, Started;
    var sim;
    sim, ws := Play(hf, parallel, failovers, decisions);
    client, server := sim.client, sim.server;
    ghost var p, y := Policy(parallel, failovers == 0, false), sim.now;
    SafetyNeverFails(hf, p, y);
    var failures;
    var mismatches := client.mismatches + server.mismatches + sim.lost;
    ok, failures := CheckRun(client, server, mismatches, bound, failovers > 0);
    if p.crashFree && y.client.inflight == map[] && bound >= parallel {
      DrainedPasses(hf, p, y, bound);
    }
  }
}
