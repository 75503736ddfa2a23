/** One client, one server, an adversarial network and failover, as a transition
    system. Messages ever sent stay available: dropping is never delivering,
    duplicating is delivering again, reordering is delivering in any order. */
module Protocol {
  import opened Messages
  import opened History
  import opened Client
  import opened Server

  /** A posted replay, with the number of requests generated when it was built. */
  datatype BuiltReplay = BuiltReplay(replay: Replay, generated: nat)

  datatype System = System(
    client: ClientState,
    server: ServerState,
    frozen: seq<Request>,           // every request generated; retries are identical
    responses: set<Response>,       // every ordinary response sent
    signals: set<nat>,              // every `recoverFrom` signalled
    replays: set<BuiltReplay>,      // every replay posted
    checkpoints: set<Checkpoint>,   // every checkpoint persisted
    lostMismatches: nat)            // mismatch callbacks of crashed servers

  /** What a run may do: the flow-control window; whether the server never crashes;
      whether checkpoints are only taken while no replayed request awaits an answer. */
  datatype Policy = Policy(window: nat, crashFree: bool, quiescent: bool)

  datatype Step =
    | Generate(payload: string)
    | DeliverRequest(id: SeqNum, app: AppFn)
    | DeliverResponse(resp: Response)
    | PostReplay(from: nat)
    | IngestReplay(built: BuiltReplay)
    | TakeCheckpoint(cp: Checkpoint)
    | Crash(cp: Checkpoint)

  function EmptyCheckpoint(hf: HashFn): Checkpoint {
    Checkpoint(0, 0, hf.seed, [])
  }

  function Init(hf: HashFn, clientHash: bool, serverHash: bool): System {
    System(InitClient(hf, clientHash), InitServer(hf, serverHash), [], {}, {}, {}, {EmptyCheckpoint(hf)}, 0)
  }

  /** What can happen next: any message ever sent, any replay ever posted, any checkpoint ever
      taken may arrive. */
  ghost predicate Offered(p: Policy, y: System, st: Step) {
    match st
    case Generate(_) => |y.client.inflight| < p.window
    case DeliverRequest(id, _) => 1 <= id <= |y.frozen|
    case DeliverResponse(r) => r in y.responses
    case PostReplay(from) => from in y.signals
    case IngestReplay(b) => b in y.replays
    case TakeCheckpoint(cp) => IsCheckpointOf(cp, y.server) && (p.quiescent ==> y.server.awaiting == {})
    case Crash(cp) => cp in y.checkpoints && !p.crashFree
  }

  ghost predicate KeepsGapless(y: System, st: Step) {
    st.IngestReplay? ==> Gapless(y.server, st.built.replay)
  }

  /** What may happen in the runs meant here: no replay is ingested across a gap. */
  ghost predicate Enabled(p: Policy, y: System, st: Step) {
    Offered(p, y, st) && KeepsGapless(y, st)
  }

  ghost function Ordinary(out: seq<Response>): set<Response> {
    set r | r in out && !r.recover
  }

  ghost function Signals(out: seq<Response>): set<nat> {
    set r | r in out && r.recover :: r.recoverFrom
  }

  ghost function Handled(y: System, res: Result): System {
    y.(server := res.state,
       responses := y.responses + Ordinary(res.out),
       signals := y.signals + Signals(res.out))
  }

  ghost function Apply(hf: HashFn, y: System, st: Step): System
    requires st.DeliverRequest? ==> 1 <= st.id <= |y.frozen|
  {
    match st
    case Generate(p) =>
      y.(client := GenerateRequest(hf, y.client, p), frozen := y.frozen + [FrozenRequest(hf, y.client, p)])
    case DeliverRequest(id, app) => Handled(y, OnRequest(hf, y.server, y.frozen[id - 1], app))
    case DeliverResponse(r) => y.(client := OnResponse(y.client, r))
    case PostReplay(from) =>
      y.(replays := y.replays + {BuiltReplay(BuildReplay(y.client, from), |y.frozen|)})
    case IngestReplay(b) => y.(server := Ingest(hf, y.server, b.replay))
    case TakeCheckpoint(cp) => y.(checkpoints := y.checkpoints + {cp})
    case Crash(cp) =>
      y.(server := Restore(cp, y.server.setHash), lostMismatches := y.lostMismatches + y.server.mismatches)
  }

  /** A finite stretch of a run: each state follows from the one before by an enabled step. */
  ghost predicate Path(hf: HashFn, p: Policy, ys: seq<System>, sts: seq<Step>) {
    && |ys| == |sts| + 1
    && forall k {:trigger sts[k]} :: 0 <= k < |sts| ==>
         Enabled(p, ys[k], sts[k]) && ys[k + 1] == Apply(hf, ys[k], sts[k])
  }

  /** Any run at all from the start of a conversation, replays across gaps included. */
  ghost predicate AnyRun(hf: HashFn, p: Policy, ys: seq<System>, sts: seq<Step>) {
    && |ys| == |sts| + 1
    && (forall k {:trigger sts[k]} :: 0 <= k < |sts| ==>
          Offered(p, ys[k], sts[k]) && ys[k + 1] == Apply(hf, ys[k], sts[k]))
    && exists ch, sh :: ys[0] == Init(hf, ch, sh)
  }

  /** A run from the start of a conversation. */
  ghost predicate Run(hf: HashFn, p: Policy, ys: seq<System>, sts: seq<Step>) {
    && Path(hf, p, ys, sts)
    && exists ch, sh :: ys[0] == Init(hf, ch, sh)
  }
}
