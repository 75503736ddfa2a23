/** What the commit loop does, whatever is staged: it commits the unbroken run of staged ids
    above the frontier, answers each of them in order, and leaves the rest. */
module Commits {
  import opened Messages
  import opened History
  import opened Server

  lemma CommitNextStaging(hf: HashFn, s: ServerState, app: AppFn)
    requires Keyed(s) && s.committedUpto + 1 in s.pendingReqs
    ensures
      var s' := CommitNext(hf, s, app);
      && Keyed(s') && s'.committedUpto == s.committedUpto + 1 && s.committedUpto + 1 in s'.respBuffer
      && s'.pendingReqs == s.pendingReqs - {s.committedUpto + 1}
  {
    hide AppendAll;
  }

  /** The responses of a run of commits: one per id, in order. */
  ghost predicate InOrder(out: seq<Response>, from: SeqNum) {
    forall j :: 0 <= j < |out| ==> out[j].id == from + j && !out[j].noOp && !out[j].recover
  }

  lemma {:induction false} CommitLoopAnswers(hf: HashFn, s: ServerState, app: AppFn)
    requires Keyed(s)
    ensures
      var res := CommitLoop(hf, s, app);
      && res.state.committedUpto == s.committedUpto + |res.out| && InOrder(res.out, s.committedUpto + 1)
      && Keyed(res.state) && res.state.committedUpto + 1 !in res.state.pendingReqs
      && (forall k :: k in res.state.pendingReqs <==>
            k in s.pendingReqs && !(s.committedUpto < k <= res.state.committedUpto))
      && (forall k :: s.committedUpto < k <= res.state.committedUpto ==> k in s.pendingReqs)
      && (forall k :: k in res.state.pendingReqs ==> res.state.pendingReqs[k] == s.pendingReqs[k])
    decreases |s.pendingReqs|
  {
    hide CommitNext;
    if s.committedUpto + 1 in s.pendingReqs {
      var s' := CommitNext(hf, s, app);
      CommitNextStaging(hf, s, app);
      CommitLoopTurn(hf, s, app, []);
      CommitLoopAnswers(hf, s', app);
      var id := s.committedUpto + 1;
      var res, rest := CommitLoop(hf, s, app), CommitLoop(hf, s', app);
      assert res.out == [MakeResponse(s', id, s'.respBuffer[id], false)] + rest.out;
      forall k | s.committedUpto < k <= res.state.committedUpto ensures k in s.pendingReqs {
        assert k == id || k in s'.pendingReqs;
      }
    }
  }
}
