/** The values that move between the two endpoints of a Color conversation, and
    the structures a failover persists or replays. Sequence numbers and hashes are
    unbounded here; the codecs bound them to 64 bits. */
module Messages {

  type SeqNum = nat
  type Hash = nat

  datatype Option<+T> = None | Some(value: T)

  /** One entry of the totally ordered history: `R<id>` or `r<id>`. */
  datatype Event = Event(isResponse: bool, id: SeqNum)

  datatype Request = Request(
    id: SeqNum,
    ackBase: SeqNum,
    ackNew: seq<SeqNum>,
    hash: Option<Hash>,
    payload: string)

  datatype Response = Response(
    id: SeqNum,
    hash: Option<Hash>,
    payload: string,
    noOp: bool,
    recover: bool,
    recoverFrom: nat)

  datatype BufferedResponse = BufferedResponse(id: SeqNum, payload: string, hash: Hash)

  datatype Checkpoint = Checkpoint(
    committedUpto: SeqNum,
    eventCount: nat,
    historyHash: Hash,
    buffer: seq<BufferedResponse>)

  datatype ReplayEvent = ReplayEvent(isResponse: bool, id: SeqNum, payload: string, hash: Hash)

  datatype Replay = Replay(from: nat, events: seq<ReplayEvent>)
}
