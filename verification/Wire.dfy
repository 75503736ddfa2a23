/** Replies as HTTP carries them: what the server writes and what the client reads out of it, and a
    recovery in which every message passes through its text. */
module Wire {
  import opened Messages
  import opened Decimal
  import opened Client
  import opened History
  import opened Server
  import opened Protocol
  import opened Safety
  import opened Reachability
  import opened Interceptor
  import opened Fates
  import Headers
  import Json
  import JsonRoundTrip
  import JsonCut

  /** A reply; header names are in lower case, as the client looks them up. */
  datatype HttpReply = HttpReply(status: nat, headers: map<string, string>, body: string)

  function WriteAnswer(setHash: bool, status: nat, r: Response): HttpReply {
    HttpReply(
      status,
      map["color-seq" := ToString(r.id), "content-type" := "application/json"]
      + (if setHash && r.hash.Some? then map["color-hash" := ToString(r.hash.value)] else map[])
      + (if r.noOp then map["color-no-op" := "1"] else map[]),
      r.payload)
  }

  function WriteSignal(status: nat, r: Response): HttpReply {
    HttpReply(status, map["color-recover" := "from=" + ToString(r.recoverFrom)], "")
  }

  function WriteReply(setHash: bool, status: nat, r: Response): HttpReply {
    if r.recover then WriteSignal(status, r) else WriteAnswer(setHash, status, r)
  }

  /** What the client makes of a reply: it is told to replay, or it has an answer. */
  datatype Reading = Recover(from: nat) | Answer(resp: Response)

  /** What follows the first equals sign; the whole text if there is none. */
  function AfterEquals(v: string): string {
    var j := FindEquals(v);
    if j < |v| then v[j + 1..] else v
  }

  function FindEquals(v: string): (j: nat)
    ensures j <= |v| && (j < |v| ==> v[j] == '=')
    ensures forall i :: 0 <= i < j ==> v[i] != '='
  {
    if v == "" || v[0] == '=' then 0 else 1 + FindEquals(v[1..])
  }

  /** The reply to the request `id`. */
  function ReadReply(id: SeqNum, h: HttpReply): Reading {
    if h.status == 503 && "color-recover" in h.headers
    then Recover(StrToULL(AfterEquals(h.headers["color-recover"])))
    else
      Answer(Response(
        if "color-seq" in h.headers then StrToULL(h.headers["color-seq"]) else id,
        if "color-hash" in h.headers then Some(StrToULL(h.headers["color-hash"])) else None,
        h.body, "color-no-op" in h.headers, false, 0))
  }

  lemma NumberBack(n: nat)
    requires JsonRoundTrip.Fits(n)
    ensures StrToULL(ToString(n)) == n
  {
    hide StrToULL, ToString;
    ReadsBack(n, "");
    assert ToString(n) + "" == ToString(n);
  }

  /** An answer arrives whole, whatever request it is taken to answer: its id, payload, no-op mark,
      and its hash if hashes are sent. */
  lemma AnswerArrives(setHash: bool, r: Response, id: SeqNum)
    requires !r.recover && r.recoverFrom == 0
    requires JsonRoundTrip.Fits(r.id) && (r.hash.Some? ==> JsonRoundTrip.Fits(r.hash.value))
    ensures ReadReply(id, WriteReply(setHash, OK, r)) == Answer(r.(hash := if setHash then r.hash else None))
  {
    hide StrToULL, ToString;
    NumberBack(r.id);
    if r.hash.Some? {
      NumberBack(r.hash.value);
    }
  }

  /** A signal is recognised, and tells the client the position to replay from. */
  lemma SignalArrives(setHash: bool, r: Response, id: SeqNum)
    requires r.recover && JsonRoundTrip.Fits(r.recoverFrom)
    ensures ReadReply(id, WriteReply(setHash, SERVICE_UNAVAILABLE, r)) == Recover(r.recoverFrom)
  {
    hide StrToULL, ToString, FindEquals;
    var n := ToString(r.recoverFrom);
    var v := "from=" + n;
    assert v[..5] == "from=" && v[5..] == n;
    assert v[0] == 'f' && v[1] == 'r' && v[2] == 'o' && v[3] == 'm' && v[4] == '=';
    assert FindEquals(v) == 4;
    NumberBack(r.recoverFrom);
  }

  // ---- the checkpoint file ----

  /** The server that starts from a checkpoint file: restored if there is one that is accepted. */
  function Boot(hf: HashFn, file: Option<string>, setHash: bool): ServerState {
    if file.Some? && Json.ParseCheckpoint(file.value).ok
    then Restore(Json.ParseCheckpoint(file.value).out, setHash)
    else InitServer(hf, setHash)
  }

  /** A server starts where the checkpoint was taken exactly if the whole of it was written; from a
      file that breaks off, or from none, it starts afresh. */
  lemma BootsExactly(hf: HashFn, cp: Checkpoint, written: string, setHash: bool)
    requires JsonRoundTrip.CheckpointFits(cp) && written <= Json.CheckpointText(cp)
    ensures Boot(hf, None, setHash) == InitServer(hf, setHash)
    ensures Boot(hf, Some(written), setHash) ==
      if written == Json.CheckpointText(cp) then Restore(cp, setHash) else InitServer(hf, setHash)
  {
    hide Json.ParseCheckpoint, Json.CheckpointText, Restore, InitServer, JsonRoundTrip.CheckpointFits;
    JsonCut.PrintedCheckpointWhole(cp, written);
    JsonRoundTrip.CheckpointRoundTrip(cp);
  }

  // ---- a recovery in texts ----

  ghost predicate RequestFits(r: Request) {
    && JsonRoundTrip.Fits(r.id) && JsonRoundTrip.Fits(r.ackBase) && (r.hash.Some? ==> JsonRoundTrip.Fits(r.hash.value))
    && forall k :: 0 <= k < |r.ackNew| ==> JsonRoundTrip.Fits(r.ackNew[k])
  }

  /** What the server gets of a request. */
  function Arrives(r: Request): Request {
    Headers.ParseRequest(Headers.Lines(r), r.payload)
  }

  lemma ArrivesWhole(r: Request)
    requires RequestFits(r)
    ensures Arrives(r) == r
  {
    hide Headers.ParseRequest, Headers.Lines;
    Headers.HeaderRoundTrip(r);
  }

  function Last(f: Front): Fate
    requires f.fates != []
  {
    f.fates[|f.fates| - 1]
  }

  /** In every reachable state: a request that needs recovery is refused; from the reply the client
      reads where to replay from; the replay it prints is parsed and brings the server to everything
      generated; and the same request, sent again, gets one answer, which the client reads as the
      answer to that request. */
  lemma RecoversOverTheWire(
      hf: HashFn, p: Policy, y: System, f: Front, id: SeqNum, refused: Object, obj: Object, app: AppFn)
    requires Reachable(hf, p, y) && f.core == y.server
    requires 1 <= id <= |y.frozen| && NeedsRecover(f.core, y.frozen[id - 1])
    requires RequestFits(y.frozen[id - 1])
    requires JsonRoundTrip.ReplayFits(BuildReplay(y.client, f.core.history.EventCount()))
    ensures
      var req := Arrives(y.frozen[id - 1]);
      var f1 := OnHttp(hf, f, refused, req, app).front;
      && f1.fates != [] && Last(f1).Replied? && Last(f1).obj == refused
      && var told := ReadReply(id, WriteReply(f.core.setHash, Last(f1).status, Last(f1).resp));
      && told.Recover?
      && var parsed := Json.ParseReplay(Json.ReplayText(BuildReplay(y.client, told.from)));
      && parsed.ok
      && var f2 := OnHttpReplay(hf, f1, parsed.out);
      && f2.core.committedUpto == |y.frozen|
      && var f3 := OnHttp(hf, f2, obj, req, app).front;
      && |f3.fates| == |f1.fates| + 1 && Last(f3).Replied? && Last(f3).obj == obj
      && var got := ReadReply(id, WriteReply(f.core.setHash, Last(f3).status, Last(f3).resp));
      && got.Answer? && got.resp.id == id
      && got.resp.payload == Last(f3).resp.payload && got.resp.noOp == Last(f3).resp.noOp
      && id in OnResponse(y.client, got.resp).received
  {
    hide Run, ClientOk, MessagesOk, ServerOk, FrozenOk, NeedsRecover, Keyed, OnHttp, Ingest, OnRequest;
    hide JsonRoundTrip.ReplayFits, RequestFits, Arrives, ReadReply, WriteReply, Json.ParseReplay, Json.ReplayText;
    hide BuildReplay, OnResponse;
    var frozen, c := y.frozen, y.client;
    ReachableAgrees(hf, p, y);
    ReachableKeyed(hf, p, y);
    ArrivesWhole(frozen[id - 1]);
    FrontRecovers(hf, f, c, frozen, id, refused, obj, app);
    var replies := OnHttpReplies(hf, f, refused, frozen[id - 1], app);
    var f1 := OnHttp(hf, f, refused, frozen[id - 1], app).front;
    var n := f.core.history.EventCount();
    assert Last(f1) == replies[0];
    ReplayFrom(c, n);
    SignalArrives(f.core.setHash, Last(f1).resp, id);
    JsonRoundTrip.BuiltReplayRoundTrip(c, n);
    var f3 := OnHttp(hf, OnHttpReplay(hf, f1, BuildReplay(c, n)), obj, frozen[id - 1], app).front;
    FrozenId(hf, frozen, c.received, id);
    AnswerRead(f.core.setHash, Last(f3).resp, id, frozen[id - 1]);
    ReceiptCounted(c, ReadReply(id, WriteReply(f.core.setHash, OK, Last(f3).resp)).resp);
  }

  lemma ReachableKeyed(hf: HashFn, p: Policy, y: System)
    requires Reachable(hf, p, y)
    ensures Keyed(y.server)
  {
    hide Run;
    var ys, sts :| EndsIn(hf, p, ys, sts, y);
    RunPlaceable(hf, p, ys, sts, |sts|);
  }

  lemma ReplayFrom(c: ClientState, from: nat)
    requires JsonRoundTrip.ReplayFits(BuildReplay(c, from))
    ensures JsonRoundTrip.Fits(from)
  {
  }

  lemma AnswerRead(setHash: bool, r: Response, id: SeqNum, req: Request)
    requires !r.recover && r.id == id == req.id && RequestFits(req)
    ensures
      var got := ReadReply(id, WriteReply(setHash, OK, r));
      got.Answer? && got.resp.id == id && got.resp.payload == r.payload && got.resp.noOp == r.noOp
  {
    hide StrToULL, ToString;
    NumberBack(r.id);
  }

  lemma ReceiptCounted(c: ClientState, r: Response)
    ensures r.id in OnResponse(c, r).received
  {
  }
}
