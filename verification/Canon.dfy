/** The canonical history: a function of the frozen requests alone. Request X puts
    one `r<i>` per acknowledgement, in receipt order, and then `R<X>`. */
module Canon {
  import opened Messages
  import opened History

  /** What committing one request appends. */
  function Block(r: Request): seq<Event> {
    AckEvents(r.ackNew) + [Event(false, r.id)]
  }

  /** The conversation's history cut just after `R<k>`. */
  ghost function Cut(frozen: seq<Request>, k: nat): seq<Event>
    requires k <= |frozen|
  {
    if k == 0 then [] else Cut(frozen, k - 1) + Block(frozen[k - 1])
  }

  ghost function HashAt(hf: HashFn, frozen: seq<Request>, k: nat): Hash
    requires k <= |frozen|
  {
    Chain(hf, Cut(frozen, k))
  }

  /** All acknowledgements carried by the first k requests, in order. */
  ghost function AckLog(frozen: seq<Request>, k: nat): seq<SeqNum>
    requires k <= |frozen|
  {
    if k == 0 then [] else AckLog(frozen, k - 1) + frozen[k - 1].ackNew
  }

  /** Generating more requests never changes an earlier cut. */
  lemma {:induction false} CutExtend(a: seq<Request>, b: seq<Request>, k: nat)
    requires k <= |a| <= |b| && a == b[..|a|]
    ensures Cut(a, k) == Cut(b, k) && AckLog(a, k) == AckLog(b, k)
  {
    if k > 0 {
      CutExtend(a, b, k - 1);
      assert a[k - 1] == b[k - 1];
    }
  }

  lemma {:induction false} CutPrefix(frozen: seq<Request>, j: nat, k: nat)
    requires j <= k <= |frozen|
    ensures Cut(frozen, j) <= Cut(frozen, k)
    ensures |Cut(frozen, k)| >= |Cut(frozen, j)| + (k - j)
  {
    if j < k {
      CutPrefix(frozen, j, k - 1);
    }
  }

  lemma {:induction false} AckLogMember(frozen: seq<Request>, k: nat, i: SeqNum)
    requires k <= |frozen|
    ensures i in AckLog(frozen, k) <==> exists x :: 0 <= x < k && i in frozen[x].ackNew
  {
    if k > 0 {
      AckLogMember(frozen, k - 1, i);
    }
  }

  /** `r<i>` is in a cut exactly when one of its requests acknowledges i. */
  lemma {:induction false} CutResponse(frozen: seq<Request>, k: nat, i: SeqNum)
    requires k <= |frozen|
    ensures Event(true, i) in Cut(frozen, k) <==> i in AckLog(frozen, k)
  {
    if k > 0 {
      CutResponse(frozen, k - 1, i);
      var acks := frozen[k - 1].ackNew;
      assert Event(true, i) in Block(frozen[k - 1]) <==> i in acks by {
        if i in acks {
          var j :| 0 <= j < |acks| && acks[j] == i;
          assert Block(frozen[k - 1])[j] == Event(true, i);
        }
      }
    }
  }
}
