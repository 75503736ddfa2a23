/** The HTTP front of the server: request objects are held until the core answers
    their id, and a checkpoint is written every so many commits. */
module Interceptor {
  import opened Messages
  import opened History
  import opened Server
  import opened Recovery
  import opened Commits
  import opened Restoration
  import opened Protocol
  import opened Safety
  import opened Reachability

  /** An HTTP request object, known by an identity. */
  type Object = nat

  /** What finally happened to an object, in the order it happened. */
  datatype Fate =
    | Replied(obj: Object, status: nat, resp: Response)
    | Aborted(obj: Object)

  datatype Front = Front(core: ServerState, held: map<SeqNum, Object>, fates: seq<Fate>)

  datatype Completed = Completed(front: Front, committed: nat)

  /** Finish with the object held for an id. */
  function Finish(f: Front, id: SeqNum, fate: Fate): Front {
    f.(held := f.held - {id}, fates := f.fates + [fate])
  }

  /** Hold the object for its id; an object superseded by a retry is aborted. */
  function Hold(f: Front, id: SeqNum, obj: Object): Front {
    var f1 := if id in f.held then Finish(f, id, Aborted(f.held[id])) else f;
    f1.(held := f1.held[id := obj])
  }

  function CompleteOne(f: Front, r: Response): Completed {
    if r.id !in f.held then Completed(f, 0)
    else Completed(Finish(f, r.id, Replied(f.held[r.id], 200, r)), if r.noOp then 0 else 1)
  }

  function Complete(f: Front, rs: seq<Response>): Completed
    decreases |rs|
  {
    if rs == [] then Completed(f, 0) else
      var one := CompleteOne(f, rs[0]);
      var rest := Complete(one.front, rs[1..]);
      Completed(rest.front, one.committed + rest.committed)
  }

  predicate IsSignal(rs: seq<Response>) {
    |rs| == 1 && rs[0].recover
  }

  function OnHttp(hf: HashFn, f: Front, obj: Object, req: Request, app: AppFn): Completed {
    var res := OnRequest(hf, f.core, req, app);
    var f1 := Hold(f, req.id, obj).(core := res.state);
    if IsSignal(res.out)
    then Completed(Finish(f1, req.id, Replied(obj, 503, res.out[0])), 0)
    else Complete(f1, res.out)
  }

  function OnHttpReplay(hf: HashFn, f: Front, rp: Replay): Front {
    f.(core := Ingest(hf, f.core, rp))
  }

  // ---- conservation ----

  ghost predicate IsHeld(f: Front, o: Object) {
    exists k :: k in f.held && f.held[k] == o
  }

  ghost predicate IsDone(f: Front, o: Object) {
    exists j :: 0 <= j < |f.fates| && f.fates[j].obj == o
  }

  /** Every object given is exactly one of: held under one id, replied to once, aborted once. */
  ghost predicate Conserved(f: Front, given: set<Object>) {
    && (forall a, b :: a in f.held && b in f.held && f.held[a] == f.held[b] ==> a == b)
    && (forall i, j :: 0 <= i < j < |f.fates| ==> f.fates[i].obj != f.fates[j].obj)
    && (forall o :: o in given <==> IsHeld(f, o) || IsDone(f, o))
    && (forall o :: !(IsHeld(f, o) && IsDone(f, o)))
  }

  lemma FinishConserves(f: Front, id: SeqNum, fate: Fate, given: set<Object>)
    requires Conserved(f, given) && id in f.held && fate.obj == f.held[id]
    ensures Conserved(Finish(f, id, fate), given)
  {
    var f' := Finish(f, id, fate);
    var moved := f.held[id];
    assert IsHeld(f, moved) && f'.fates[|f.fates|].obj == moved;
    forall o ensures IsDone(f', o) <==> IsDone(f, o) || o == moved {
      if j :| 0 <= j < |f.fates| && f.fates[j].obj == o {
        assert f'.fates[j].obj == o;
      }
    }
    forall o ensures IsHeld(f', o) <==> IsHeld(f, o) && o != moved {
      if k :| k in f.held && f.held[k] == o && o != moved {
        assert k in f'.held;
      }
    }
    forall j | 0 <= j < |f.fates| ensures f'.fates[j].obj != moved {
      assert IsDone(f, f.fates[j].obj);
    }
  }

  lemma TakeConserves(f: Front, id: SeqNum, obj: Object, given: set<Object>)
    requires Conserved(f, given) && id !in f.held && obj !in given
    ensures Conserved(f.(held := f.held[id := obj]), given + {obj})
  {
    var f' := f.(held := f.held[id := obj]);
    assert f'.held[id] == obj;
    forall o ensures IsHeld(f', o) <==> IsHeld(f, o) || o == obj {
      if k :| k in f.held && f.held[k] == o {
        assert k in f'.held && f'.held[k] == o;
      }
    }
    forall o ensures IsDone(f', o) == IsDone(f, o) {
    }
    forall k | k in f.held ensures f.held[k] != obj {
      assert IsHeld(f, f.held[k]);
    }
  }

  lemma {:induction false} CompleteConserves(f: Front, rs: seq<Response>, given: set<Object>)
    requires Conserved(f, given)
    ensures Conserved(Complete(f, rs).front, given)
    decreases |rs|
  {
    hide Conserved;
    if rs != [] {
      if rs[0].id in f.held {
        FinishConserves(f, rs[0].id, Replied(f.held[rs[0].id], 200, rs[0]), given);
      }
      CompleteConserves(CompleteOne(f, rs[0]).front, rs[1..], given);
    }
  }

  lemma CoreIrrelevant(f: Front, s: ServerState, given: set<Object>)
    requires Conserved(f, given)
    ensures Conserved(f.(core := s), given)
  {
    var f' := f.(core := s);
    assert forall o :: IsHeld(f', o) == IsHeld(f, o) && IsDone(f', o) == IsDone(f, o);
  }

  /** Whatever the request, and whatever the core answers, no object is lost, replied to twice,
      or replied to and aborted. */
  lemma OnHttpConserves(hf: HashFn, f: Front, obj: Object, req: Request, app: AppFn, given: set<Object>)
    requires Conserved(f, given) && obj !in given
    ensures Conserved(OnHttp(hf, f, obj, req, app).front, given + {obj})
  {
    hide Conserved, OnRequest, Complete;
    if req.id in f.held {
      FinishConserves(f, req.id, Aborted(f.held[req.id]), given);
      TakeConserves(Finish(f, req.id, Aborted(f.held[req.id])), req.id, obj, given);
    } else {
      TakeConserves(f, req.id, obj, given);
    }
    var res := OnRequest(hf, f.core, req, app);
    var f1 := Hold(f, req.id, obj);
    CoreIrrelevant(f1, res.state, given + {obj});
    if IsSignal(res.out) {
      FinishConserves(f1.(core := res.state), req.id, Replied(obj, 503, res.out[0]), given + {obj});
    } else {
      CompleteConserves(f1.(core := res.state), res.out, given + {obj});
    }
  }

  datatype Call = Http(obj: Object, req: Request, app: AppFn) | Replayed(replay: Replay)

  function OnCalls(hf: HashFn, f: Front, calls: seq<Call>): Front
    decreases |calls|
  {
    if calls == [] then f else
      var f' := match calls[0]
        case Http(obj, req, app) => OnHttp(hf, f, obj, req, app).front
        case Replayed(rp) => OnHttpReplay(hf, f, rp);
      OnCalls(hf, f', calls[1..])
  }

  ghost function Objects(calls: seq<Call>): set<Object> {
    set c | c in calls && c.Http? :: c.obj
  }

  /** Over any sequence of requests and replays, each with its own object. */
  lemma {:induction false} CallsConserve(hf: HashFn, f: Front, calls: seq<Call>, given: set<Object>)
    requires Conserved(f, given) && given !! Objects(calls)
    requires forall i, j :: 0 <= i < j < |calls| && calls[i].Http? && calls[j].Http? ==> calls[i].obj != calls[j].obj
    ensures Conserved(OnCalls(hf, f, calls), given + Objects(calls))
    decreases |calls|
  {
    hide Conserved, OnHttp, Ingest;
    if calls == [] {
      assert given + Objects(calls) == given;
    } else {
      var c, rest := calls[0], calls[1..];
      assert calls == [c] + rest;
      assert forall x :: x in calls <==> x == c || x in rest;
      match c
      case Http(obj, req, app) =>
        assert c in calls && obj in Objects(calls);
        OnHttpConserves(hf, f, obj, req, app, given);
        assert Objects(calls) == {obj} + Objects(rest);
        assert obj !in Objects(rest) by {
          forall x | x in rest && x.Http? ensures x.obj != obj {
            var j :| 0 <= j < |rest| && rest[j] == x;
            assert calls[j + 1] == x;
          }
        }
        CallsConserve(hf, OnHttp(hf, f, obj, req, app).front, rest, given + {obj});
        assert given + {obj} + Objects(rest) == given + Objects(calls);
      case Replayed(rp) =>
        CoreIrrelevant(f, Ingest(hf, f.core, rp), given);
        assert Objects(calls) == Objects(rest);
        CallsConserve(hf, OnHttpReplay(hf, f, rp), rest, given);
    }
  }

  // ---- staged requests have held objects ----

  /** Every staged request above the frontier has a held object. */
  ghost predicate StagedHeld(f: Front) {
    && Keyed(f.core)
    && forall k :: k in f.core.pendingReqs && k > f.core.committedUpto ==> k in f.held
  }

  /** The recovery signal for this request takes away the object of one that stays staged. */
  predicate TakesAway(f: Front, req: Request) {
    NeedsRecover(f.core, req) && req.id in f.core.pendingReqs && req.id > f.core.committedUpto
  }

  lemma {:induction false} CompleteKeeps(f: Front, rs: seq<Response>, k: SeqNum)
    requires forall j :: 0 <= j < |rs| ==> rs[j].id != k
    ensures k in Complete(f, rs).front.held <==> k in f.held
    ensures Complete(f, rs).front.core == f.core
    decreases |rs|
  {
    if rs != [] {
      CompleteKeeps(CompleteOne(f, rs[0]).front, rs[1..], k);
    }
  }

  /** Completing answers for ids that are all held completes every one of them. */
  lemma {:induction false} CompleteAnswers(f: Front, rs: seq<Response>, from: SeqNum)
    requires InOrder(rs, from)
    requires forall k :: from <= k < from + |rs| ==> k in f.held
    ensures
      var done := Complete(f, rs);
      && done.committed == |rs|
      && (forall k :: k in done.front.held <==> k in f.held && !(from <= k < from + |rs|))
    decreases |rs|
  {
    if rs != [] {
      var f' := CompleteOne(f, rs[0]).front;
      assert forall j :: 0 <= j < |rs[1..]| ==> rs[1..][j] == rs[j + 1];
      CompleteAnswers(f', rs[1..], from + 1);
    }
  }

  lemma AnswerShape(s: ServerState, req: Request, app: AppFn)
    ensures
      var res := AnswerCommitted(s, req, app);
      && |res.out| == 1 && res.out[0].id == req.id && !res.out[0].recover
      && res.state.committedUpto == s.committedUpto && res.state.pendingReqs == s.pendingReqs
  {
  }

  /** How one delivery below the signal case divides: an already committed id, or a run of commits. */
  lemma OnRequestShape(hf: HashFn, s: ServerState, req: Request, app: AppFn)
    requires Keyed(s)
    ensures
      var res := OnRequest(hf, s, req, app);
      && Keyed(res.state)
      && (NeedsRecover(s, req) ==> IsSignal(res.out) && res.state == s)
      && (!NeedsRecover(s, req) && req.id <= s.committedUpto ==>
            && |res.out| == 1 && res.out[0].id == req.id && !res.out[0].recover
            && res.state.committedUpto == s.committedUpto && res.state.pendingReqs == s.pendingReqs)
      && (!NeedsRecover(s, req) && req.id > s.committedUpto ==>
            var staged := s.pendingReqs[req.id := req];
            && res.state.committedUpto == s.committedUpto + |res.out| && InOrder(res.out, s.committedUpto + 1)
            && (forall k :: k in res.state.pendingReqs <==>
                  k in staged && !(s.committedUpto < k <= res.state.committedUpto))
            && (forall k :: s.committedUpto < k <= res.state.committedUpto ==> k in staged)
            && res.state.committedUpto + 1 !in res.state.pendingReqs
            && (forall k :: k in res.state.pendingReqs ==> res.state.pendingReqs[k] == staged[k]))
  {
    hide CommitLoop, NeedsRecover, AnswerCommitted;
    if req.id > s.committedUpto {
      CommitLoopAnswers(hf, Stage(Release(s, req), req), app);
    } else {
      AnswerShape(Release(s, req), req, app);
    }
  }

  /** The front at the moment the core has answered and nothing is completed yet. */
  lemma HoldKeys(f: Front, id: SeqNum, obj: Object, s: ServerState)
    ensures
      var f1 := Hold(f, id, obj).(core := s);
      f1.core == s && forall k :: k in f1.held <==> k in f.held || k == id
  {
  }

  /** Whatever the request: the staged ids stay held exactly unless the recovery signal takes one
      away, and no commit of the core goes uncounted. */
  lemma OnHttpHoldsExactly(hf: HashFn, f: Front, obj: Object, req: Request, app: AppFn)
    requires StagedHeld(f)
    ensures
      var done := OnHttp(hf, f, obj, req, app);
      && (StagedHeld(done.front) <==> !TakesAway(f, req))
      && Keyed(done.front.core) && done.front.core.committedUpto >= f.core.committedUpto
      && done.committed >= done.front.core.committedUpto - f.core.committedUpto
  {
    hide OnRequest, Complete, NeedsRecover;
    OnRequestShape(hf, f.core, req, app);
    var res := OnRequest(hf, f.core, req, app);
    var f1 := Hold(f, req.id, obj).(core := res.state);
    HoldKeys(f, req.id, obj, res.state);
    var done := OnHttp(hf, f, obj, req, app);
    if !NeedsRecover(f.core, req) {
      forall k | k in res.state.pendingReqs && k > res.state.committedUpto
        ensures k in done.front.held
      {
        CompleteKeeps(f1, res.out, k);
      }
      if req.id > f.core.committedUpto {
        forall k | f.core.committedUpto < k <= res.state.committedUpto ensures k in f1.held {
          assert k in f.core.pendingReqs[req.id := req];
        }
        CompleteAnswers(f1, res.out, f.core.committedUpto + 1);
      }
      CompleteCore(f1, res.out);
    }
  }

  lemma OnHttpGrows(hf: HashFn, f: Front, obj: Object, req: Request, app: AppFn)
    requires Keyed(f.core)
    ensures
      var g := OnHttp(hf, f, obj, req, app).front;
      Keyed(g.core) && g.core.committedUpto >= f.core.committedUpto
  {
    hide OnRequest, Complete;
    OnRequestShape(hf, f.core, req, app);
    var res := OnRequest(hf, f.core, req, app);
    CompleteCore(Hold(f, req.id, obj).(core := res.state), res.out);
  }

  /** It happens: a second request under a staged id, acknowledging more than the core has, leaves
      that id staged with nothing held; the commit that follows goes uncounted. */
  lemma SignalTakesAway(hf: HashFn, app: AppFn)
    ensures
      var f0 := Front(InitServer(hf, true), map[], []);
      var f1 := OnHttp(hf, f0, 0, Request(2, 1, [], None, "b"), app).front;
      var other := Request(2, 5, [], None, "b");
      var f2 := OnHttp(hf, f1, 1, other, app).front;
      var done := OnHttp(hf, f2, 2, Request(1, 1, [], None, "a"), app);
      && StagedHeld(f1) && TakesAway(f1, other) && !StagedHeld(f2)
      && f2.core.committedUpto == 0 && done.front.core.committedUpto == 2 && done.committed == 1
  {
    hide OnRequest, Complete;
    var f0 := Front(InitServer(hf, true), map[], []);
    var first, other, gap := Request(2, 1, [], None, "b"), Request(2, 5, [], None, "b"), Request(1, 1, [], None, "a");
    var r1 := OnRequest(hf, f0.core, first, app);
    OnRequestShape(hf, f0.core, first, app);
    assert 1 !in f0.core.pendingReqs[2 := first];
    assert r1.out == [] && 2 in r1.state.pendingReqs;
    CompleteNone(Hold(f0, 2, 0).(core := r1.state));
    var f1 := OnHttp(hf, f0, 0, first, app).front;
    OnRequestShape(hf, f1.core, other, app);
    var f2 := OnHttp(hf, f1, 1, other, app).front;
    OnRequestShape(hf, f2.core, gap, app);
    var r3 := OnRequest(hf, f2.core, gap, app);
    var staged := f2.core.pendingReqs[1 := gap];
    assert 1 in staged && 2 in staged && 3 !in staged;
    assert |r3.out| == 2;
    CompletePair(Hold(f2, 1, 2).(core := r3.state), r3.out);
    CompleteCore(Hold(f2, 1, 2).(core := r3.state), r3.out);
  }

  /** What is staged could be placed when it arrived, and the frontier only rises. */
  ghost predicate Placeable(s: ServerState) {
    Keyed(s) && forall k :: k in s.pendingReqs ==> !NeedsRecover(s, s.pendingReqs[k])
  }

  lemma RecoverNeedShrinks(s: ServerState, t: ServerState, req: Request)
    requires s.committedUpto <= t.committedUpto && !NeedsRecover(s, req)
    ensures !NeedsRecover(t, req)
  {
  }

  lemma OnRequestPlaceable(hf: HashFn, s: ServerState, req: Request, app: AppFn)
    requires Placeable(s)
    ensures Placeable(OnRequest(hf, s, req, app).state)
  {
    hide OnRequest, NeedsRecover;
    OnRequestShape(hf, s, req, app);
    var t := OnRequest(hf, s, req, app).state;
    if !NeedsRecover(s, req) {
      forall k | k in t.pendingReqs ensures !NeedsRecover(t, t.pendingReqs[k]) {
        RecoverNeedShrinks(s, t, t.pendingReqs[k]);
      }
    }
  }

  lemma IngestPlaceable(hf: HashFn, s: ServerState, rp: Replay)
    requires Placeable(s)
    ensures Placeable(Ingest(hf, s, rp))
  {
    hide NeedsRecover;
    IngestCounts(hf, s, EventsOf(Unheld(s, rp)));
    IngestStaging(hf, s, EventsOf(Unheld(s, rp)));
    var t := Ingest(hf, s, rp);
    forall k | k in t.pendingReqs ensures !NeedsRecover(t, t.pendingReqs[k]) {
      RecoverNeedShrinks(s, t, t.pendingReqs[k]);
    }
  }

  lemma StepPlaceable(hf: HashFn, p: Policy, y: System, st: Step)
    requires Placeable(y.server) && Enabled(p, y, st)
    ensures Placeable(Apply(hf, y, st).server)
  {
    hide OnRequest, Ingest, Restore, NeedsRecover;
    match st
    case DeliverRequest(id, app) => OnRequestPlaceable(hf, y.server, y.frozen[id - 1], app);
    case IngestReplay(b) => IngestPlaceable(hf, y.server, b.replay);
    case Crash(cp) => RestoreBlank(cp, y.server.setHash);
    case _ =>
  }

  lemma {:induction false} RunPlaceable(hf: HashFn, p: Policy, ys: seq<System>, sts: seq<Step>, k: nat)
    requires Run(hf, p, ys, sts) && k <= |sts|
    ensures Placeable(ys[k].server)
  {
    hide Apply, Enabled, NeedsRecover;
    if k > 0 {
      RunPlaceable(hf, p, ys, sts, k - 1);
      assert Enabled(p, ys[k - 1], sts[k - 1]);
      StepPlaceable(hf, p, ys[k - 1], sts[k - 1]);
    }
  }

  /** In every run of the protocol no signal ever takes an object away: what is staged under an id
      is the very request that arrives, and it could be placed when it was staged. */
  lemma RunsTakeNothingAway(hf: HashFn, p: Policy, y: System, f: Front, id: SeqNum)
    requires Reachable(hf, p, y) && f.core == y.server && 1 <= id <= |y.frozen|
    ensures !TakesAway(f, y.frozen[id - 1])
  {
    hide Run, ClientOk, MessagesOk, HistoryOk, OnceOk, NeedsRecover;
    ReachableAgrees(hf, p, y);
    assert RequestOk(hf, y.frozen, id - 1, y.client.received);
    var ys, sts :| EndsIn(hf, p, ys, sts, y);
    RunPlaceable(hf, p, ys, sts, |sts|);
  }

  lemma CompleteNone(f: Front)
    ensures Complete(f, []) == Completed(f, 0)
  {
  }

  /** Two answers, the second for an id with no held object. */
  lemma CompletePair(f: Front, rs: seq<Response>)
    requires InOrder(rs, 1) && |rs| == 2 && 1 in f.held && 2 !in f.held
    ensures Complete(f, rs).committed == 1
  {
    assert rs[1..][0] == rs[1] && rs[1..][1..] == [];
    assert Complete(f, rs).committed == CompleteOne(f, rs[0]).committed +
      Complete(CompleteOne(f, rs[0]).front, rs[1..]).committed;
  }

  lemma {:induction false} CompleteCore(f: Front, rs: seq<Response>)
    ensures Complete(f, rs).front.core == f.core
    decreases |rs|
  {
    if rs != [] {
      CompleteCore(CompleteOne(f, rs[0]).front, rs[1..]);
    }
  }

  /** Ingesting a replay only raises the frontier. */
  lemma ReplayKeepsHeld(hf: HashFn, f: Front, rp: Replay)
    requires StagedHeld(f)
    ensures StagedHeld(OnHttpReplay(hf, f, rp))
  {
    IngestCounts(hf, f.core, EventsOf(Unheld(f.core, rp)));
    IngestStaging(hf, f.core, EventsOf(Unheld(f.core, rp)));
  }

  // ---- without recovery the two tables have the same keys ----

  ghost predicate SameKeys(f: Front) {
    && Keyed(f.core)
    && (forall k :: k in f.held <==> k in f.core.pendingReqs)
    && (forall k :: k in f.core.pendingReqs ==> k > f.core.committedUpto)
  }

  /** While no request needs recovery, an object is held exactly for each staged request. */
  lemma OnHttpSameKeys(hf: HashFn, f: Front, obj: Object, req: Request, app: AppFn)
    requires SameKeys(f) && !NeedsRecover(f.core, req)
    ensures SameKeys(OnHttp(hf, f, obj, req, app).front)
  {
    hide OnRequest, Complete, NeedsRecover;
    OnRequestShape(hf, f.core, req, app);
    var res := OnRequest(hf, f.core, req, app);
    var f1 := Hold(f, req.id, obj).(core := res.state);
    CompleteCore(f1, res.out);
    if req.id > f.core.committedUpto {
      forall k | f.core.committedUpto < k <= res.state.committedUpto ensures k in f1.held {
        assert k in f.core.pendingReqs[req.id := req];
      }
      CompleteAnswers(f1, res.out, f.core.committedUpto + 1);
    } else {
      CompleteSingle(f1, res.out);
    }
  }

  lemma CompleteSingle(f: Front, rs: seq<Response>)
    requires |rs| == 1 && rs[0].id in f.held
    ensures Complete(f, rs).front.held == f.held - {rs[0].id}
  {
    assert rs[1..] == [];
  }

  // ---- how far behind the last checkpoint can be ----

  /** Commits of the loop since the last checkpoint, against the counter that triggers the next. */
  ghost predicate LagOk(every: nat, counter: nat, uncovered: nat) {
    every > 0 ==> uncovered <= counter < every
  }

  class ColorInterceptor {
    const core: ColorServer
    const checkpointing: bool
    const every: nat
    var commitsSince: nat
    var pending: map<SeqNum, Object>
    var fates: seq<Fate>
    var saved: Option<Checkpoint>
    var writes: nat            // checkpoints written
    ghost var uncovered: nat   // commits of the core's loop since the last one
    ghost var intact: bool     // no recovery signal took away the object of a staged request

    ghost function State(): Front
      reads this, core, core.history
    {
      Front(core.State(), pending, fates)
    }

    ghost predicate Valid()
      reads this, core, core.history
    {
      && Keyed(core.State())
      && (intact ==> StagedHeld(State()) && (checkpointing ==> LagOk(every, commitsSince, uncovered)))
    }

    constructor (core: ColorServer, checkpointing: bool, every: nat)
      requires core.pendingReqs == map[]
      ensures this.core == core && this.checkpointing == checkpointing && this.every == every
      ensures State() == Front(core.State(), map[], []) && Valid() && saved == None && intact
    {
      this.core, this.checkpointing, this.every := core, checkpointing, every;
      commitsSince, pending, fates, saved, writes, uncovered, intact := 0, map[], [], None, 0, 0, true;
    }

    /** Write a checkpoint once enough commits have been counted. */
    method MaybeCheckpoint(committed: nat)
      modifies this`commitsSince, this`saved, this`writes, this`uncovered
      ensures writes == old(writes) + if checkpointing && every > 0
        && old(commitsSince) + committed >= every then 1 else 0
      ensures
        if writes == old(writes)
        then saved == old(saved) && uncovered == old(uncovered)
             && commitsSince == old(commitsSince) + if checkpointing && every > 0 then committed else 0
        else commitsSince == 0 && uncovered == 0 && saved.Some? && IsCheckpointOf(saved.value, core.State())
    {
      if !checkpointing || every == 0 { return; }
      commitsSince := commitsSince + committed;
      if commitsSince >= every {
        var cp := core.Snapshot();
        saved := Some(cp);
        writes := writes + 1;
        commitsSince := 0;
        uncovered := 0;
      }
    }

    method CompleteAll(responses: seq<Response>) returns (committed: nat)
      modifies this`pending, this`fates
      ensures Completed(State(), committed) == Complete(old(State()), responses)
    {
      committed := 0;
      ghost var whole := Complete(State(), responses);
      for i := 0 to |responses|
        invariant
          var rest := Complete(State(), responses[i..]);
          whole == Completed(rest.front, committed + rest.committed)
      {
        var resp := responses[i];
        assert responses[i..][0] == resp && responses[i..][1..] == responses[i + 1..];
        if resp.id in pending {
          fates := fates + [Replied(pending[resp.id], 200, resp)];
          pending := pending - {resp.id};
          if !resp.noOp { committed := committed + 1; }
        }
      }
    }

    /** Hold the object, let the core answer, and reply to whatever it answered. */
    method Dispatch(obj: Object, req: Request, app: AppFn) returns (committed: nat, signalled: bool)
      modifies this`pending, this`fates, core, core.history
      ensures Completed(State(), committed) == OnHttp(core.history.hf, old(State()), obj, req, app)
      ensures signalled ==> committed == 0
    {
      hide Server.OnRequest, Complete;
      if req.id in pending {
        fates := fates + [Aborted(pending[req.id])];
        pending := pending - {req.id};
      }
      pending := pending[req.id := obj];
      var responses := core.Handle(req, app);
      if |responses| == 1 && responses[0].recover {
        pending := pending - {req.id};
        fates := fates + [Replied(obj, 503, responses[0])];
        return 0, true;
      }
      committed := CompleteAll(responses);
      return committed, false;
    }

    method OnRequest(obj: Object, req: Request, app: AppFn)
      requires Valid()
      modifies this, core, core.history
      ensures Valid() && intact == (old(intact) && !TakesAway(old(State()), req))
      ensures old(StagedHeld(State())) ==> (StagedHeld(State()) <==> !TakesAway(old(State()), req))
      ensures State() == OnHttp(core.history.hf, old(State()), obj, req, app).front
      ensures core.committedUpto >= old(core.committedUpto)
      ensures
        if writes == old(writes)
        then saved == old(saved) && uncovered == old(uncovered) + core.committedUpto - old(core.committedUpto)
        else uncovered == 0 && saved.Some? && IsCheckpointOf(saved.value, core.State())
    {
      hide StagedHeld, TakesAway, Keyed, OnHttp, IsCheckpointOf;
      ghost var f := State();
      OnHttpGrows(core.history.hf, f, obj, req, app);
      if StagedHeld(f) {
        OnHttpHoldsExactly(core.history.hf, f, obj, req, app);
      }
      intact := intact && !TakesAway(f, req);
      var committed, signalled := Dispatch(obj, req, app);
      uncovered := uncovered + (core.committedUpto - f.core.committedUpto);
      if !signalled {
        MaybeCheckpoint(committed);
      }
    }

    method OnReplay(rp: Replay)
      requires Valid()
      modifies core, core.history
      ensures Valid() && intact == old(intact)
      ensures core.State() == Ingest(core.history.hf, old(core.State()), rp)
      ensures pending == old(pending) && fates == old(fates) && commitsSince == old(commitsSince)
      ensures saved == old(saved) && writes == old(writes) && uncovered == old(uncovered)
      ensures State() == OnHttpReplay(core.history.hf, old(State()), rp)
    {
      IngestStaging(core.history.hf, core.State(), EventsOf(Unheld(core.State(), rp)));
      if intact {
        ReplayKeepsHeld(core.history.hf, State(), rp);
      }
      core.IngestReplay(rp);
    }
  }
}
