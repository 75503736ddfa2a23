/** The client state machine: first as functions on values, then as the object
    whose methods update its fields, each method tied to its function. */
module Client {
  import opened Messages
  import opened History
  import opened Canon

  datatype Delivery = Delivery(id: SeqNum, payload: string)

  datatype ClientState = ClientState(
    setHash: bool,
    nextSeq: SeqNum,
    base: SeqNum,
    received: set<SeqNum>,
    receivedPayload: map<SeqNum, string>,
    pendingNew: seq<SeqNum>,
    reqHash: map<SeqNum, Hash>,
    inflight: map<SeqNum, Request>,
    history: HistoryState,
    sent: nat,
    maxAckNew: nat,
    mismatches: nat,            // calls of the hash-mismatch callback
    delivered: seq<Delivery>)   // calls of the deliver callback, in order

  function InitClient(hf: HashFn, setHash: bool): ClientState {
    ClientState(setHash, 1, 1, {}, map[], [], map[], map[], Fresh(hf), 0, 0, 0, [])
  }

  function Max(a: nat, b: nat): nat {
    if a > b then a else b
  }

  function FrozenRequest(hf: HashFn, c: ClientState, payload: string): Request {
    var h := AppendAll(hf, c.history, AckEvents(c.pendingNew) + [Event(false, c.nextSeq)]);
    Request(c.nextSeq, c.base, c.pendingNew, if c.setHash then Some(h.curHash) else None, payload)
  }

  function GenerateRequest(hf: HashFn, c: ClientState, payload: string): ClientState {
    var r := FrozenRequest(hf, c, payload);
    var h := AppendAll(hf, c.history, Block(r));
    c.(nextSeq := c.nextSeq + 1,
       pendingNew := [],
       history := h,
       reqHash := c.reqHash[r.id := h.curHash],
       inflight := c.inflight[r.id := r],
       sent := c.sent + 1,
       maxAckNew := Max(c.maxAckNew, |r.ackNew|))
  }

  /** The low-water mark: skip the contiguous received prefix. */
  function AdvanceBase(received: set<SeqNum>, base: SeqNum): SeqNum
    decreases From(received, base)
  {
    if base in received then
      FromShrinks(received, base);
      AdvanceBase(received, base + 1)
    else base
  }

  ghost function From(received: set<SeqNum>, base: SeqNum): set<SeqNum> {
    set i | i in received && i >= base
  }

  lemma FromShrinks(received: set<SeqNum>, base: SeqNum)
    requires base in received
    ensures From(received, base + 1) < From(received, base)
  {
    assert base in From(received, base) && base !in From(received, base + 1);
    assert From(received, base + 1) <= From(received, base);
  }

  /** It stops at the first id not received. */
  lemma {:induction false} AdvanceBaseIsFirstMissing(received: set<SeqNum>, base: SeqNum)
    ensures
      var b := AdvanceBase(received, base);
      b >= base && b !in received && forall i :: base <= i < b ==> i in received
    decreases From(received, base)
  {
    if base in received {
      FromShrinks(received, base);
      AdvanceBaseIsFirstMissing(received, base + 1);
    }
  }

  predicate ClientMismatch(setHash: bool, reqHash: map<SeqNum, Hash>, resp: Response) {
    && resp.hash.Some? && setHash
    && resp.id in reqHash && resp.hash.value != reqHash[resp.id]
  }

  function OnResponse(c: ClientState, resp: Response): ClientState {
    if resp.id in c.received then c else
      var received := c.received + {resp.id};
      c.(received := received,
         mismatches := if ClientMismatch(c.setHash, c.reqHash, resp) then c.mismatches + 1 else c.mismatches,
         pendingNew := if resp.noOp then c.pendingNew else c.pendingNew + [resp.id],
         receivedPayload := if resp.noOp then c.receivedPayload else c.receivedPayload[resp.id := resp.payload],
         base := AdvanceBase(received, c.base),
         inflight := c.inflight - {resp.id},
         delivered := if resp.noOp then c.delivered else c.delivered + [Delivery(resp.id, resp.payload)])
  }

  function ReplayEventAt(c: ClientState, e: Event): ReplayEvent {
    ReplayEvent(
      e.isResponse, e.id,
      if e.isResponse && e.id in c.receivedPayload then c.receivedPayload[e.id] else "",
      if e.isResponse && e.id in c.reqHash then c.reqHash[e.id] else 0)
  }

  /** The client's history from an event index on; empty if the index is past its end. */
  function BuildReplay(c: ClientState, from: nat): (rp: Replay)
    ensures rp.from == from
    ensures |rp.events| == if from <= |c.history.events| then |c.history.events| - from else 0
    ensures forall i :: 0 <= i < |rp.events| ==>
      && rp.events[i].isResponse == c.history.events[from + i].isResponse
      && rp.events[i].id == c.history.events[from + i].id
  {
    var n := if from <= |c.history.events| then |c.history.events| - from else 0;
    var es := seq(n, i requires 0 <= i < n => ReplayEventAt(c, c.history.events[from + i]));
    assert forall i :: 0 <= i < n ==> es[i] == ReplayEventAt(c, c.history.events[from + i]);
    Replay(from, es)
  }

  class ColorClient {
    const setHash: bool
    const history: History
    var nextSeq: SeqNum
    var base: SeqNum
    var received: set<SeqNum>
    var receivedPayload: map<SeqNum, string>
    var pendingNew: seq<SeqNum>
    var reqHash: map<SeqNum, Hash>
    var inflight: map<SeqNum, Request>
    var sent: nat
    var maxAckNew: nat
    var mismatches: nat
    var delivered: seq<Delivery>

    ghost function State(): ClientState
      reads this, history
    {
      ClientState(setHash, nextSeq, base, received, receivedPayload, pendingNew, reqHash,
                  inflight, history.State(), sent, maxAckNew, mismatches, delivered)
    }

    constructor (hf: HashFn, setHash: bool)
      ensures history.hf == hf && fresh(history)
      ensures State() == InitClient(hf, setHash)
    {
      this.setHash := setHash;
      history := new History(hf);
      nextSeq, base, received, receivedPayload := 1, 1, {}, map[];
      pendingNew, reqHash, inflight, sent, maxAckNew := [], map[], map[], 0, 0;
      mismatches, delivered := 0, [];
    }

    method Generate(p: string) returns (r: Request)
      modifies this, history
      ensures r == FrozenRequest(history.hf, old(State()), p)
      ensures State() == GenerateRequest(history.hf, old(State()), p)
    {
      hide AppendAll;
      var id := nextSeq;
      nextSeq := nextSeq + 1;
      var newAcks := pendingNew;
      pendingNew := [];
      if |newAcks| > maxAckNew { maxAckNew := |newAcks|; }

      var h := history.AppendBlock(newAcks, id);
      reqHash := reqHash[id := h];

      r := Request(id, base, newAcks, if setHash then Some(h) else None, p);
      inflight := inflight[id := r];
      sent := sent + 1;
    }

    method SkipReceived()
      modifies this`base
      ensures base == AdvanceBase(received, old(base))
    {
      while base in received
        invariant AdvanceBase(received, base) == AdvanceBase(received, old(base))
        decreases From(received, base)
      {
        FromShrinks(received, base);
        base := base + 1;
      }
    }

    /** A first response: what each field becomes. */
    method Accept(resp: Response)
      modifies this`mismatches, this`received, this`pendingNew, this`receivedPayload, this`base, this`inflight,
               this`delivered
      ensures mismatches == old(mismatches) + if ClientMismatch(setHash, reqHash, resp) then 1 else 0
      ensures received == old(received) + {resp.id} && base == AdvanceBase(received, old(base))
      ensures inflight == old(inflight) - {resp.id}
      ensures
        if resp.noOp
        then pendingNew == old(pendingNew) && receivedPayload == old(receivedPayload) && delivered == old(delivered)
        else pendingNew == old(pendingNew) + [resp.id]
             && receivedPayload == old(receivedPayload)[resp.id := resp.payload]
             && delivered == old(delivered) + [Delivery(resp.id, resp.payload)]
    {
      hide AdvanceBase;
      if resp.hash.Some? && setHash && resp.id in reqHash && resp.hash.value != reqHash[resp.id] {
        mismatches := mismatches + 1;
      }
      received := received + {resp.id};
      if !resp.noOp {
        pendingNew := pendingNew + [resp.id];
        receivedPayload := receivedPayload[resp.id := resp.payload];
      }
      SkipReceived();
      inflight := inflight - {resp.id};
      if !resp.noOp { delivered := delivered + [Delivery(resp.id, resp.payload)]; }
    }

    method Receive(resp: Response) returns (first: bool)
      modifies this
      ensures first == (resp.id !in old(received))
      ensures State() == OnResponse(old(State()), resp)
    {
      hide AdvanceBase, ClientMismatch;
      if resp.id in received { return false; }
      Accept(resp);
      return true;
    }

    method ReplayFrom(from: nat) returns (rp: Replay)
      ensures rp == BuildReplay(State(), from)
    {
      var ev := history.events;
      var out := [];
      var i := from;
      while i < |ev|
        invariant from <= i && (i <= |ev| || i == from)
        invariant |out| == i - from
        invariant forall j :: 0 <= j < |out| ==> out[j] == ReplayEventAt(State(), ev[from + j])
      {
        var re := ReplayEvent(ev[i].isResponse, ev[i].id, "", 0);
        if re.isResponse {
          if re.id in receivedPayload { re := re.(payload := receivedPayload[re.id]); }
          if re.id in reqHash { re := re.(hash := reqHash[re.id]); }
        }
        out := out + [re];
        i := i + 1;
      }
      rp := Replay(from, out);
    }

    /** The unanswered request ids, each once, in whatever order the table yields them. */
    method Outstanding() returns (v: seq<SeqNum>)
      ensures forall i :: i in v <==> i in inflight
      ensures forall i, j :: 0 <= i < j < |v| ==> v[i] != v[j]
      ensures |v| == |inflight|
    {
      v := [];
      var rest := inflight.Keys;
      while rest != {}
        invariant rest <= inflight.Keys
        invariant forall i :: i in inflight <==> i in v || i in rest
        invariant forall i :: i in v ==> i !in rest
        invariant forall i, j :: 0 <= i < j < |v| ==> v[i] != v[j]
        invariant |v| + |rest| == |inflight|
        decreases rest
      {
        var i :| i in rest;
        v := v + [i];
        rest := rest - {i};
      }
    }
  }
}
