/** States that runs of the protocol end in. */
module Reachability {
  import opened History
  import opened Client
  import opened Server
  import opened Protocol
  import opened Safety
  import opened Runs
  import opened CrashFree
  import opened Progress

  ghost predicate EndsIn(hf: HashFn, p: Policy, ys: seq<System>, sts: seq<Step>, y: System) {
    Run(hf, p, ys, sts) && ys[|sts|] == y
  }

  /** Some run ends in this state. */
  ghost predicate Reachable(hf: HashFn, p: Policy, y: System) {
    exists ys, sts :: EndsIn(hf, p, ys, sts, y)
  }

  lemma ReachableAgrees(hf: HashFn, p: Policy, y: System)
    requires Reachable(hf, p, y)
    ensures Agreement(hf, y)
  {
    hide Run, Agreement;
    var ys, sts :| EndsIn(hf, p, ys, sts, y);
    RunAgrees(hf, p, ys, sts, |sts|);
  }

  lemma InitReachable(hf: HashFn, p: Policy, ch: bool, sh: bool)
    ensures Reachable(hf, p, Init(hf, ch, sh))
  {
    assert EndsIn(hf, p, [Init(hf, ch, sh)], [], Init(hf, ch, sh));
  }

  lemma PathReachable(hf: HashFn, p: Policy, zs: seq<System>, more: seq<Step>)
    requires Path(hf, p, zs, more) && Reachable(hf, p, zs[0])
    ensures Reachable(hf, p, zs[|more|])
  {
    hide Apply, Enabled, Init;
    var ys, sts :| EndsIn(hf, p, ys, sts, zs[0]);
    PathConcat(hf, p, ys, sts, zs, more);
    assert EndsIn(hf, p, ys + zs[1..], sts + more, zs[|more|]);
  }

  lemma StepReachable(hf: HashFn, p: Policy, y: System, st: Step)
    requires Reachable(hf, p, y) && Enabled(p, y, st)
    ensures Reachable(hf, p, Apply(hf, y, st))
  {
    hide Reachable, Apply;
    OneStep(hf, p, y, st);
    PathReachable(hf, p, [y, Apply(hf, y, st)], [st]);
  }

  lemma ReachableSteady(hf: HashFn, p: Policy, y: System)
    requires p.crashFree && Reachable(hf, p, y)
    ensures Good(hf, p, y) && Steady(hf, y)
  {
    hide Run, Good, Steady;
    var ys, sts :| EndsIn(hf, p, ys, sts, y);
    RunGood(hf, p, ys, sts, |sts|);
    RunSteady(hf, p, ys, sts, |sts|);
  }

  lemma ReachableGood(hf: HashFn, p: Policy, y: System)
    requires p.quiescent && Reachable(hf, p, y)
    ensures Good(hf, p, y)
  {
    hide Run, Good;
    var ys, sts :| EndsIn(hf, p, ys, sts, y);
    RunGood(hf, p, ys, sts, |sts|);
  }

  /** Every step of the one is a step of the other. */
  ghost predicate Allows(q: Policy, p: Policy) {
    q.window >= p.window && (q.crashFree ==> p.crashFree) && (q.quiescent ==> p.quiescent)
  }

  lemma Loosen(hf: HashFn, p: Policy, q: Policy, y: System)
    requires Reachable(hf, p, y) && Allows(q, p)
    ensures Reachable(hf, q, y)
  {
    hide Apply;
    var ys, sts :| EndsIn(hf, p, ys, sts, y);
    forall k {:trigger sts[k]} | 0 <= k < |sts|
      ensures Enabled(q, ys[k], sts[k]) && ys[k + 1] == Apply(hf, ys[k], sts[k])
    {
      assert Enabled(p, ys[k], sts[k]);
    }
    assert EndsIn(hf, q, ys, sts, y);
  }

  lemma {:induction false} CheckpointsKept(hf: HashFn, p: Policy, ys: seq<System>, sts: seq<Step>, k: nat)
    requires Path(hf, p, ys, sts) && k <= |sts|
    ensures ys[0].checkpoints <= ys[k].checkpoints
  {
    hide OnRequest, Ingest, Restore, GenerateRequest, OnResponse;
    if k > 0 {
      CheckpointsKept(hf, p, ys, sts, k - 1);
      assert Enabled(p, ys[k - 1], sts[k - 1]);
    }
  }

  /** The empty checkpoint a server starts from stays available. */
  lemma EmptyKept(hf: HashFn, p: Policy, y: System)
    requires Reachable(hf, p, y)
    ensures EmptyCheckpoint(hf) in y.checkpoints
  {
    hide Path;
    var ys, sts :| EndsIn(hf, p, ys, sts, y);
    PathEnds(hf, p, ys, sts);
    CheckpointsKept(hf, p, ys, sts, |sts|);
  }

  lemma PathEnds(hf: HashFn, p: Policy, ys: seq<System>, sts: seq<Step>)
    requires Path(hf, p, ys, sts)
    ensures |ys| == |sts| + 1
  {
  }

  /** A crash back to the start. */
  lemma CrashReachable(hf: HashFn, p: Policy, y: System)
    requires Reachable(hf, p, y) && !p.crashFree
    ensures
      var z := Apply(hf, y, Crash(EmptyCheckpoint(hf)));
      && Reachable(hf, p, z) && z == y.(server := z.server, lostMismatches := z.lostMismatches)
      && z.server.committedUpto == 0 && z.server.history.EventCount() == 0
      && z.server.pendingReqs == map[] && z.server.respBuffer == map[] && z.server.calls == []
  {
    hide Reachable;
    EmptyKept(hf, p, y);
    StepReachable(hf, p, y, Crash(EmptyCheckpoint(hf)));
  }
}
