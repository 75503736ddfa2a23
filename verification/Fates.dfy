/** What each HTTP request object is answered with: a recovery signal is refused with 503, every
    other answer of the core goes with 200 to the object held under its id, and an object is aborted
    exactly when a retry of its id arrives. */
module Fates {
  import opened Messages
  import opened Client
  import opened History
  import opened Server
  import opened Safety
  import opened Recovery
  import opened Replies
  import opened Interceptor

  const OK: nat := 200
  const SERVICE_UNAVAILABLE: nat := 503

  /** How many of these replies are real answers. */
  function RealReplies(fates: seq<Fate>): nat {
    if fates == [] then 0
    else (if fates[0].Replied? && !fates[0].resp.noOp then 1 else 0) + RealReplies(fates[1..])
  }

  ghost predicate DistinctIds(rs: seq<Response>) {
    forall i, j :: 0 <= i < j < |rs| ==> rs[i].id != rs[j].id
  }

  /** Each of these responses went once, with 200, to the object held under its id, and to no other. */
  ghost predicate RepliesTo(held: map<SeqNum, Object>, rs: seq<Response>, replies: seq<Fate>) {
    && |replies| <= |rs|
    && (forall i, j :: 0 <= i < j < |replies| ==> replies[i] != replies[j])
    && (forall fate :: fate in replies ==>
          && fate.Replied? && fate.status == OK && fate.resp in rs
          && fate.resp.id in held && fate.obj == held[fate.resp.id])
    && (forall r :: r in rs && r.id in held ==> Replied(held[r.id], OK, r) in replies)
  }

  ghost predicate Answered(rs: seq<Response>, k: SeqNum) {
    exists r :: r in rs && r.id == k
  }

  /** What is held under no answered id still is. */
  ghost predicate Leaves(held: map<SeqNum, Object>, rs: seq<Response>, after: map<SeqNum, Object>) {
    && (forall k :: k in after <==> k in held && !Answered(rs, k))
    && (forall k :: k in after ==> after[k] == held[k])
  }

  lemma RepliesCons(held: map<SeqNum, Object>, r: Response, rest: seq<Response>, more: seq<Fate>)
    requires RepliesTo(held - {r.id}, rest, more) && forall q :: q in rest ==> q.id != r.id
    ensures RepliesTo(held, [r] + rest, (if r.id in held then [Replied(held[r.id], OK, r)] else []) + more)
  {
    var all := [r] + rest;
    assert forall q :: q in all <==> q == r || q in rest;
    var first := if r.id in held then [Replied(held[r.id], OK, r)] else [];
    assert forall fate :: fate in first + more <==> fate in first || fate in more;
  }

  lemma LeavesCons(held: map<SeqNum, Object>, r: Response, rest: seq<Response>, after: map<SeqNum, Object>)
    requires Leaves(held - {r.id}, rest, after)
    ensures Leaves(held, [r] + rest, after)
  {
    var all := [r] + rest;
    assert forall q :: q in all <==> q == r || q in rest;
    forall k ensures Answered(all, k) <==> k == r.id || Answered(rest, k) {
      assert r in all;
      if Answered(rest, k) {
        var q :| q in rest && q.id == k;
        assert q in all;
      }
    }
  }

  lemma {:induction false} CompleteReplies(f: Front, rs: seq<Response>) returns (replies: seq<Fate>)
    requires DistinctIds(rs)
    ensures
      var done := Complete(f, rs);
      && done.front.fates == f.fates + replies && done.front.core == f.core
      && RepliesTo(f.held, rs, replies) && Leaves(f.held, rs, done.front.held)
      && done.committed == RealReplies(replies)
    decreases |rs|
  {
    hide RepliesTo, Leaves;
    if rs == [] {
      replies := [];
      NoReplies(f.held);
      assert f.fates + [] == f.fates;
    } else {
      var r, rest := rs[0], rs[1..];
      var one := CompleteOne(f, r);
      assert rs == [r] + rest;
      LaterIds(rs);
      HeldAfter(f, r);
      var more := CompleteReplies(one.front, rest);
      RepliesCons(f.held, r, rest, more);
      LeavesCons(f.held, r, rest, Complete(one.front, rest).front.held);
      var first := if r.id in f.held then [Replied(f.held[r.id], OK, r)] else [];
      replies := first + more;
      assert f.fates + first + more == f.fates + replies;
      RealCons(first, more);
    }
  }

  lemma LaterIds(rs: seq<Response>)
    requires DistinctIds(rs) && rs != []
    ensures DistinctIds(rs[1..]) && forall q :: q in rs[1..] ==> q.id != rs[0].id
  {
    var rest := rs[1..];
    assert forall i :: 0 <= i < |rest| ==> rest[i] == rs[i + 1];
    forall q | q in rest ensures q.id != rs[0].id {
      var i :| 0 <= i < |rest| && rest[i] == q;
      assert rs[i + 1] == q;
    }
  }

  lemma HeldAfter(f: Front, r: Response)
    ensures CompleteOne(f, r).front.held == f.held - {r.id}
    ensures CompleteOne(f, r).front.fates == f.fates + if r.id in f.held then [Replied(f.held[r.id], OK, r)] else []
  {
    if r.id !in f.held {
      assert f.held - {r.id} == f.held && f.fates + [] == f.fates;
    }
  }

  lemma RealCons(first: seq<Fate>, more: seq<Fate>)
    requires |first| <= 1
    ensures RealReplies(first + more) == RealReplies(first) + RealReplies(more)
  {
    if first == [] {
      assert first + more == more;
    } else {
      assert (first + more)[1..] == more && first[1..] == [];
    }
  }

  lemma NoReplies(held: map<SeqNum, Object>)
    ensures RepliesTo(held, [], []) && Leaves(held, [], held)
  {
  }

  // ---- one request ----

  /** What the arrival of a request does to the object held under its id. */
  function Superseded(f: Front, id: SeqNum): seq<Fate> {
    if id in f.held then [Aborted(f.held[id])] else []
  }

  lemma OutIdsDistinct(hf: HashFn, s: ServerState, req: Request, app: AppFn)
    requires Keyed(s)
    ensures DistinctIds(OnRequest(hf, s, req, app).out)
    ensures IsSignal(OnRequest(hf, s, req, app).out) <==> NeedsRecover(s, req)
  {
    hide OnRequest, NeedsRecover;
    OnRequestShape(hf, s, req, app);
  }

  /** What any request leads to. If it needs recovery, its own object is refused with 503 and told
      the core's event count; otherwise every response of the core goes with 200 to the object held
      under its id. Besides, an object is aborted exactly if it was held under the arriving id. */
  lemma OnHttpReplies(hf: HashFn, f: Front, obj: Object, req: Request, app: AppFn)
    returns (replies: seq<Fate>)
    requires Keyed(f.core)
    ensures
      var res, done := OnRequest(hf, f.core, req, app), OnHttp(hf, f, obj, req, app);
      && done.front.core == res.state && done.front.fates == f.fates + Superseded(f, req.id) + replies
      && (NeedsRecover(f.core, req) ==>
            && replies == [Replied(obj, SERVICE_UNAVAILABLE,
                                   Response(req.id, None, "", false, true, f.core.history.EventCount()))]
            && done.front.held == f.held - {req.id} && done.committed == 0)
      && (!NeedsRecover(f.core, req) ==>
            && RepliesTo(f.held[req.id := obj], res.out, replies)
            && Leaves(f.held[req.id := obj], res.out, done.front.held)
            && done.committed == RealReplies(replies))
  {
    hide OnRequest, NeedsRecover, Complete, RepliesTo, Leaves, AnswersOnce, Served;
    var res := OnRequest(hf, f.core, req, app);
    var f1 := Hold(f, req.id, obj).(core := res.state);
    HeldNow(f, req.id, obj);
    OutIdsDistinct(hf, f.core, req, app);
    DeliveryReplies(hf, f.core, req, app);
    if NeedsRecover(f.core, req) {
      replies := [Replied(obj, SERVICE_UNAVAILABLE, res.out[0])];
      assert f.held[req.id := obj] - {req.id} == f.held - {req.id};
    } else {
      replies := CompleteReplies(f1, res.out);
    }
  }

  lemma HeldNow(f: Front, id: SeqNum, obj: Object)
    ensures Hold(f, id, obj).held == f.held[id := obj]
    ensures Hold(f, id, obj).fates == f.fates + Superseded(f, id)
  {
    if id !in f.held {
      assert f.fates + [] == f.fates;
    }
  }

  // ---- recovery, at the front ----

  /** A request refused with the signal, the replay the client builds from what it was told, and the
      request again: the new object gets exactly one ordinary reply, for its own id. */
  lemma FrontRecovers(
      hf: HashFn, f: Front, c: ClientState, frozen: seq<Request>, id: SeqNum,
      refused: Object, obj: Object, app: AppFn)
    requires FrozenOk(hf, frozen, c.received) && ClientOk(hf, c, frozen) && ServerOk(hf, f.core, frozen)
    requires Keyed(f.core) && 1 <= id <= |frozen| && NeedsRecover(f.core, frozen[id - 1])
    ensures
      var req := frozen[id - 1];
      var f1 := OnHttp(hf, f, refused, req, app).front;
      && |f1.fates| > 0
      && var told := f1.fates[|f1.fates| - 1];
      && told.Replied? && told.obj == refused && told.status == SERVICE_UNAVAILABLE && told.resp.recover
      && var f2 := OnHttpReplay(hf, f1, BuildReplay(c, told.resp.recoverFrom));
      && f2.core.committedUpto == |frozen|
      && var fates := OnHttp(hf, f2, obj, req, app).front.fates;
      && |fates| == |f1.fates| + 1 && fates[..|f1.fates|] == f1.fates
      && var last := fates[|f1.fates|];
      && last.Replied? && last.obj == obj && last.status == OK && last.resp.id == id && !last.resp.recover
  {
    hide OnRequest, NeedsRecover, OnHttp, FrozenOk, ClientOk, ServerOk, Keyed, Ingest, RepliesTo, Leaves;
    var req := frozen[id - 1];
    var first := OnHttpReplies(hf, f, refused, req, app);
    DeliveryReplies(hf, f.core, req, app);
    var f1 := OnHttp(hf, f, refused, req, app).front;
    var f2 := OnHttpReplay(hf, f1, BuildReplay(c, f.core.history.EventCount()));
    OneShotRecovery(hf, c, f.core, frozen, id, app);
    RecoveredKeyed(hf, f.core, BuildReplay(c, f.core.history.EventCount()));
    var second := OnHttpReplies(hf, f2, obj, req, app);
    FrozenId(hf, frozen, c.received, id);
    OneReply(f2.held[req.id := obj], OnRequest(hf, f2.core, req, app).out, second);
    assert f1.fates + [] == f1.fates;
  }

  lemma OneReply(held: map<SeqNum, Object>, out: seq<Response>, replies: seq<Fate>)
    requires RepliesTo(held, out, replies) && |out| == 1 && out[0].id in held
    ensures replies == [Replied(held[out[0].id], OK, out[0])]
  {
    assert out[0] in out;
    assert replies[0] in replies;
  }

  lemma RecoveredKeyed(hf: HashFn, s: ServerState, rp: Replay)
    requires Keyed(s)
    ensures Keyed(Ingest(hf, s, rp))
  {
    IngestStaging(hf, s, EventsOf(Unheld(s, rp)));
  }

  lemma FrozenId(hf: HashFn, frozen: seq<Request>, received: set<SeqNum>, id: SeqNum)
    requires FrozenOk(hf, frozen, received) && 1 <= id <= |frozen|
    ensures frozen[id - 1].id == id
  {
    assert RequestOk(hf, frozen, id - 1, received);
  }
}
