/** What the acknowledgement lists record: the receipts, once each, in receipt order. */
module Acknowledgements {
  import opened Messages
  import opened History
  import opened Canon
  import opened Client
  import opened Server
  import opened Protocol
  import opened Safety
  import opened Runs
  import opened Answers

  ghost function Ids(ds: seq<Delivery>): (ids: seq<SeqNum>)
    ensures |ids| == |ds| && forall k :: 0 <= k < |ds| ==> ids[k] == ds[k].id
  {
    seq(|ds|, k requires 0 <= k < |ds| => ds[k].id)
  }

  ghost predicate Distinct<T(!new)>(s: seq<T>) {
    forall a, b :: 0 <= a < b < |s| ==> s[a] != s[b]
  }

  /** Acknowledged or about to be. */
  ghost function Receipts(y: System): seq<SeqNum> {
    AckLog(y.frozen, |y.frozen|) + y.client.pendingNew
  }

  /** The acknowledgement lists and the pending one, end to end, are the deliveries in order. */
  ghost predicate AcksLogged(y: System) {
    && Receipts(y) == Ids(y.client.delivered)
    && Distinct(Receipts(y))
    && (forall i :: i in Receipts(y) ==> i in y.client.received)
  }

  /** And they list all that was received. */
  ghost predicate AcksOk(y: System) {
    AcksLogged(y) && forall i :: i in y.client.received ==> i in Receipts(y)
  }

  /** A no-op was the client's first response for an id: received, never delivered. */
  ghost predicate Silenced(ys: seq<System>, sts: seq<Step>, k: nat, i: SeqNum)
    requires k <= |sts| <= |ys|
  {
    exists j :: 0 <= j < k && sts[j].DeliverResponse? && sts[j].resp.id == i && sts[j].resp.noOp
                && i !in ys[j].client.received
  }

  /** No no-op was ever accepted as a first response. */
  ghost predicate NoOpsRepeat(ys: seq<System>, sts: seq<Step>, k: nat)
    requires k <= |sts| <= |ys|
  {
    forall j :: 0 <= j < k && sts[j].DeliverResponse? && sts[j].resp.noOp ==> sts[j].resp.id in ys[j].client.received
  }

  lemma GenerateLogged(hf: HashFn, y: System, payload: string)
    ensures
      var y' := Apply(hf, y, Generate(payload));
      && Receipts(y') == Receipts(y) && y'.client.received == y.client.received
      && y'.client.delivered == y.client.delivered
  {
    var y' := Apply(hf, y, Generate(payload));
    Stable(hf, y.frozen, y'.frozen);
  }

  lemma ReceiveLogged(y: System, r: Response)
    requires AcksLogged(y)
    ensures
      var y' := y.(client := OnResponse(y.client, r));
      && AcksLogged(y') && y'.client.received == y.client.received + {r.id}
      && Receipts(y') == Receipts(y) + if r.noOp || r.id in y.client.received then [] else [r.id]
  {
    hide AdvanceBase;
    var y' := y.(client := OnResponse(y.client, r));
    if r.id !in y.client.received && !r.noOp {
      assert Receipts(y') == Receipts(y) + [r.id];
      assert Ids(y'.client.delivered) == Ids(y.client.delivered) + [r.id];
    } else {
      assert Receipts(y') == Receipts(y) + [];
    }
  }

  /** What one step adds to the receipts and to what was received. */
  lemma StepLogged(hf: HashFn, p: Policy, y: System, st: Step)
    requires AcksLogged(y) && Enabled(p, y, st)
    ensures
      var y' := Apply(hf, y, st);
      && AcksLogged(y')
      && (st.DeliverResponse? ==>
            && y'.client.received == y.client.received + {st.resp.id}
            && (forall i :: i in Receipts(y') <==>
                  i in Receipts(y) || (i == st.resp.id && !st.resp.noOp && i !in y.client.received)))
      && (!st.DeliverResponse? ==> y'.client.received == y.client.received && Receipts(y') == Receipts(y))
  {
    hide OnRequest, Ingest, Restore, OnResponse, AcksLogged, Distinct;
    match st
    case Generate(payload) =>
      GenerateLogged(hf, y, payload);
      SameLog(y, Apply(hf, y, st));
    case DeliverResponse(r) => ReceiveLogged(y, r);
    case _ => SameLog(y, Apply(hf, y, st));
  }

  lemma SameLog(y: System, z: System)
    requires AcksLogged(y) && Receipts(z) == Receipts(y)
    requires z.client.received == y.client.received && z.client.delivered == y.client.delivered
    ensures AcksLogged(z)
  {
  }

  lemma InitLogged(hf: HashFn, p: Policy, ys: seq<System>, sts: seq<Step>)
    requires Run(hf, p, ys, sts)
    ensures AcksLogged(ys[0]) && ys[0].client.received == {}
  {
  }

  lemma SilencedGrows(ys: seq<System>, sts: seq<Step>, k: nat, i: SeqNum)
    requires 0 < k <= |sts| <= |ys|
    ensures
      var st := sts[k - 1];
      Silenced(ys, sts, k, i) <==>
      || Silenced(ys, sts, k - 1, i)
      || (st.DeliverResponse? && st.resp.id == i && st.resp.noOp && i !in ys[k - 1].client.received)
  {
  }

  /** In every run, what was received is what was acknowledged or is about to be, and what a no-op
      silenced; never both. */
  lemma {:induction false} RunLogged(hf: HashFn, p: Policy, ys: seq<System>, sts: seq<Step>, k: nat)
    requires Run(hf, p, ys, sts) && k <= |sts|
    ensures AcksLogged(ys[k])
    ensures forall i :: i in ys[k].client.received <==> i in Receipts(ys[k]) || Silenced(ys, sts, k, i)
    ensures forall i :: !(i in Receipts(ys[k]) && Silenced(ys, sts, k, i))
  {
    hide AcksLogged, Apply, Enabled, Init, Receipts, Silenced;
    if k == 0 {
      InitLogged(hf, p, ys, sts);
      forall i ensures !Silenced(ys, sts, 0, i) && i !in Receipts(ys[0]) {
        NothingSilenced(ys, sts, i);
        LoggedReceived(ys[0], i);
      }
    } else {
      RunLogged(hf, p, ys, sts, k - 1);
      assert Enabled(p, ys[k - 1], sts[k - 1]);
      StepLogged(hf, p, ys[k - 1], sts[k - 1]);
      forall i
        ensures i in ys[k].client.received <==> i in Receipts(ys[k]) || Silenced(ys, sts, k, i)
        ensures !(i in Receipts(ys[k]) && Silenced(ys, sts, k, i))
      {
        SilencedGrows(ys, sts, k, i);
      }
    }
  }

  lemma NothingSilenced(ys: seq<System>, sts: seq<Step>, i: SeqNum)
    requires |sts| <= |ys|
    ensures !Silenced(ys, sts, 0, i)
  {
  }

  lemma LoggedReceived(y: System, i: SeqNum)
    requires AcksLogged(y)
    ensures i in Receipts(y) ==> i in y.client.received
  {
  }

  /** The lists cover all that was received exactly when no no-op came first. */
  lemma AcksOkExactly(hf: HashFn, p: Policy, ys: seq<System>, sts: seq<Step>, k: nat)
    requires Run(hf, p, ys, sts) && k <= |sts|
    ensures AcksOk(ys[k]) <==> NoOpsRepeat(ys, sts, k)
  {
    hide AcksLogged, Apply, Enabled, Init, Receipts;
    RunLogged(hf, p, ys, sts, k);
    if NoOpsRepeat(ys, sts, k) {
      assert forall i :: !Silenced(ys, sts, k, i);
      assert forall i :: i in ys[k].client.received ==> i in Receipts(ys[k]);
    } else {
      var j :| 0 <= j < k && sts[j].DeliverResponse? && sts[j].resp.noOp && sts[j].resp.id !in ys[j].client.received;
      assert Silenced(ys, sts, k, sts[j].resp.id);
    }
  }

  /** Which it never does where no answer is lost. */
  lemma RunAcks(hf: HashFn, p: Policy, ys: seq<System>, sts: seq<Step>, k: nat)
    requires p.quiescent || p.crashFree
    requires Run(hf, p, ys, sts) && k <= |sts|
    ensures NoOpsRepeat(ys, sts, k) && AcksOk(ys[k])
  {
    hide AcksOk, Apply, Enabled, Init;
    forall j | 0 <= j < k && sts[j].DeliverResponse? && sts[j].resp.noOp
      ensures sts[j].resp.id in ys[j].client.received
    {
      NoLostAnswer(hf, p, ys, sts, j);
    }
    AcksOkExactly(hf, p, ys, sts, k);
  }

  lemma StepAcks(hf: HashFn, p: Policy, y: System, st: Step)
    requires NothingLost(p, y) && AcksOk(y) && Enabled(p, y, st)
    ensures AcksOk(Apply(hf, y, st))
  {
    hide Apply, AcksLogged, Receipts;
    StepLogged(hf, p, y, st);
  }

  // ---- the shape of the history ----

  /** Every event of a cut is `R<n>` for one of its requests or `r<i>` for one of its acknowledgements. */
  lemma {:induction false} CutEvents(hf: HashFn, frozen: seq<Request>, received: set<SeqNum>, k: nat, e: Event)
    requires FrozenOk(hf, frozen, received) && k <= |frozen| && e in Cut(frozen, k)
    ensures if e.isResponse then e.id in AckLog(frozen, k) else 1 <= e.id <= k
  {
    if e in Cut(frozen, k - 1) {
      CutEvents(hf, frozen, received, k - 1, e);
    } else {
      assert RequestOk(hf, frozen, k - 1, received);
    }
  }

  lemma DistinctPrefix<T(!new)>(a: seq<T>, b: seq<T>)
    requires Distinct(a + b)
    ensures Distinct(a) && Distinct(b) && forall x :: x in a ==> x !in b
  {
    assert forall i :: 0 <= i < |a| ==> a[i] == (a + b)[i];
    assert forall i :: 0 <= i < |b| ==> b[i] == (a + b)[|a| + i];
  }

  lemma DistinctConcat<T(!new)>(a: seq<T>, b: seq<T>)
    requires Distinct(a) && Distinct(b) && forall x :: x in a ==> x !in b
    ensures Distinct(a + b)
  {
    forall i, j | 0 <= i < j < |a + b| ensures (a + b)[i] != (a + b)[j] {
      if i < |a| <= j {
        assert a[i] in a && b[j - |a|] in b;
      }
    }
  }

  /** No event occurs twice in a history whose acknowledgements are distinct. */
  lemma {:induction false} CutDistinct(hf: HashFn, frozen: seq<Request>, received: set<SeqNum>, k: nat)
    requires FrozenOk(hf, frozen, received) && k <= |frozen| && Distinct(AckLog(frozen, k))
    ensures Distinct(Cut(frozen, k))
  {
    if k > 0 {
      var r := frozen[k - 1];
      DistinctPrefix(AckLog(frozen, k - 1), r.ackNew);
      CutDistinct(hf, frozen, received, k - 1);
      assert RequestOk(hf, frozen, k - 1, received);
      var cut, block := Cut(frozen, k - 1), Block(r);
      forall e | e in cut ensures e !in block {
        CutEvents(hf, frozen, received, k - 1, e);
      }
      DistinctConcat(cut, block);
    }
  }

  /** `r<i>` comes after `R<i>`. */
  lemma {:induction false} ResponseFollowsRequest(
      hf: HashFn, frozen: seq<Request>, received: set<SeqNum>, k: nat, a: nat)
    requires FrozenOk(hf, frozen, received) && k <= |frozen|
    requires a < |Cut(frozen, k)| && Cut(frozen, k)[a].isResponse
    ensures exists b :: 0 <= b < a && Cut(frozen, k)[b] == Event(false, Cut(frozen, k)[a].id)
  {
    var cut := Cut(frozen, k - 1);
    if a < |cut| {
      ResponseFollowsRequest(hf, frozen, received, k - 1, a);
      var b :| 0 <= b < a && cut[b] == Event(false, cut[a].id);
      assert Cut(frozen, k)[b] == Event(false, Cut(frozen, k)[a].id);
    } else {
      assert RequestOk(hf, frozen, k - 1, received);
      var i := frozen[k - 1].ackNew[a - |cut|];
      assert i in frozen[k - 1].ackNew;
      assert RequestOk(hf, frozen, i - 1, received);
      CutEnds(frozen, i);
      CutPrefix(frozen, i, k - 1);
      var b := |Cut(frozen, i)| - 1;
      assert Cut(frozen, k)[b] == Event(false, i);
    }
  }

  /** In every run: the acknowledgement lists and the pending one are the deliveries in receipt
      order, each once, and they partition the received ids exactly when no no-op was accepted as a
      first response; `base` is the first id missing; `inflight` is generated minus received; and in
      the client's history each `r<i>` occurs once, after `R<i>`. */
  lemma AcknowledgementStructure(hf: HashFn, p: Policy, ys: seq<System>, sts: seq<Step>, k: nat)
    requires Run(hf, p, ys, sts) && k <= |sts|
    ensures
      var c := ys[k].client;
      var events := c.history.events;
      && Receipts(ys[k]) == Ids(c.delivered) && Distinct(Receipts(ys[k]))
      && (forall i :: i in Receipts(ys[k]) ==> i in c.received)
      && ((forall i :: i in c.received ==> i in Receipts(ys[k])) <==> NoOpsRepeat(ys, sts, k))
      && c.base !in c.received && (forall i :: 1 <= i < c.base ==> i in c.received)
      && (forall i :: i in c.inflight <==> 1 <= i < c.nextSeq && i !in c.received)
      && Distinct(events)
      && forall a :: 0 <= a < |events| && events[a].isResponse ==>
           exists b :: 0 <= b < a && events[b] == Event(false, events[a].id)
  {
    hide ServerOk, MessagesOk, NoOpsRepeat, Apply, Enabled, Init;
    RunAgrees(hf, p, ys, sts, k);
    RunLogged(hf, p, ys, sts, k);
    AcksOkExactly(hf, p, ys, sts, k);
    var y := ys[k];
    var n := |y.frozen|;
    DistinctPrefix(AckLog(y.frozen, n), y.client.pendingNew);
    CutDistinct(hf, y.frozen, y.client.received, n);
    forall a | 0 <= a < |y.client.history.events| && y.client.history.events[a].isResponse
      ensures exists b ::
        0 <= b < a && y.client.history.events[b] == Event(false, y.client.history.events[a].id)
    {
      ResponseFollowsRequest(hf, y.frozen, y.client.received, n, a);
    }
  }

  /** What a new request puts before itself in the history is all delivered and not yet there. */
  lemma GeneratedCut(hf: HashFn, y: System, payload: string, i: SeqNum)
    ensures
      var frozen := Apply(hf, y, Generate(payload)).frozen;
      |frozen| == |y.frozen| + 1 && (Event(true, i) in Cut(frozen, |frozen|) <==> i in Receipts(y))
  {
    hide AppendAll;
    var frozen := Apply(hf, y, Generate(payload)).frozen;
    CutExtend(y.frozen, frozen, |y.frozen|);
    CutResponse(frozen, |frozen|, i);
    assert AckLog(frozen, |frozen|) == Receipts(y);
  }

  /** In every run `r<i>` precedes `R<X>` in the history exactly when an answer to i was delivered
      before X was generated; that is, when i was received by then, if no no-op came first. */
  lemma OrderIsReceiptOrder(hf: HashFn, p: Policy, ys: seq<System>, sts: seq<Step>, k: nat, later: nat, i: SeqNum)
    requires Run(hf, p, ys, sts) && k < later <= |sts| && sts[k].Generate?
    ensures
      var x := ys[k].client.nextSeq;
      && 1 <= x <= |ys[later].frozen|
      && (Event(true, i) in Cut(ys[later].frozen, x) <==> i in Ids(ys[k].client.delivered))
      && (NoOpsRepeat(ys, sts, k) ==> (Event(true, i) in Cut(ys[later].frozen, x) <==> i in ys[k].client.received))
  {
    hide ServerOk, MessagesOk, FrozenOk, ReceiptsOk, Apply, Receipts, NoOpsRepeat, Cut, Init;
    RunAgrees(hf, p, ys, sts, k);
    RunLogged(hf, p, ys, sts, k);
    AcksOkExactly(hf, p, ys, sts, k);
    assert Enabled(p, ys[k], sts[k]);
    GeneratedCut(hf, ys[k], sts[k].payload, i);
    FrozenGrows(hf, p, ys, sts, k + 1, later);
    CutExtend(ys[k + 1].frozen, ys[later].frozen, ys[k].client.nextSeq);
  }
}
