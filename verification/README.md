# Color: the conversation protocol, failover and codecs

Color keeps a client and a server agreed on one totally ordered history of requests `R<n>` and
responses `r<n>` over HTTP, while messages are lost, copied, delayed and reordered, and while the
server is killed and rebuilt from an old checkpoint plus a replay sent by the client. This project
models the two state machines, the network between them, the recovery protocol, the HTTP front, the
two wire codecs and the simulation that exercises them, and proves what they keep over every run.

`dafny verify dfyconfig.toml` checks everything.

## How it is laid out

- `Messages`, `History`, `Canon`: the data, the rolling history, and the *cut*: the history that a
  list of frozen requests determines, up to and including `R<n>`.
- `Client`, `Server`: each state machine twice, as functions on values and as the object that updates
  its fields in loops; every method is proved to compute its function. `Commits`: what the commit
  loop does, whatever is staged.
- `Protocol`: client, server and network as one transition system. All messages ever sent stay
  available, so losing is never delivering, copying is delivering again and reordering is delivering
  in any order. A crash restarts the server from *any* checkpoint ever taken. `Policy` says which runs
  are meant: the flow-control window, whether the server never crashes (`crashFree`), whether
  checkpoints are only taken while nothing awaits an answer (`quiescent`).
- `Safety`, `Runs`: agreement in every reachable state. `Recovery`, `Restoration`, `Answers`,
  `Acknowledgements`: recovery, checkpoint and restore, no lost answer, the structure of
  acknowledgements. `CrashFree`, `Window`, `Tightness`, `Progress`, `Reachability`: order, causality,
  exactly-once, bounds that are attained, progress and draining.
- `Checker`, `Harness`: the end-of-run checker and the simulation over the real objects, whose every
  execution is shown to be a run of the transition system.
- `Replies`, `Carried`: what one request is answered with and what it releases, and what requests,
  answers and replays carry, in every run.
- `Decimal`, `Headers`, `Json`, `JsonValues`, `JsonScalars`, `JsonLayout`, `JsonRoundTrip`, `JsonUnknown`,
  `JsonCut`, `JsonAccepted`, `JsonCodec`: the header and JSON codecs: what survives, what is ignored and
  what is rejected.
- `Failures`: whole runs in which the code does not keep a property. `Bounds`: exactly when the checked
  bounds hold. `Calls`: what the application is called with, and in what order.
- `Interceptor`, `Fates`: the table of held HTTP request objects, and what each object is answered with.
  `Wire`: HTTP replies and the checkpoint file as texts, and a recovery that passes through them.

The hash is an arbitrary seed and step function, so every result holds for any hash. The application
is an arbitrary function, chosen anew at each delivery, so it need not be deterministic. A callback
(hash mismatch, delivery, commit) is a counter or a log in the state. Time and randomness become
choices: which step a run takes, which `Decision` a simulation is given.

## Where the code does not meet a property

Each has a whole run in which it fails, and the exact condition under which the code does meet it.

- `ingest_replay` appends across a gap. `AnyRun` admits every replay ever posted; over all of them the
  histories match all along if and only if none is ingested across a gap
  (`Recovery.FailoverSafetyExactly`, and for one replay `Recovery.IngestAgreesExactlyWithoutGap`). From
  every reachable state in which a server that holds events asks for recovery there is a run in which
  they stop matching (`Failures.GapDiverges`); `Failures.GapRun` is one. `Run` is such a run without
  gaps, and the results below about `Run` are about those.
- `checkpoint` does not save the awaiting set. Restoring loses no answer if and only if the client
  already holds every awaited one (`Answers.RestoreCoversExactly`); otherwise, from every reachable
  state, a checkpoint, a crash and a retry make a no-op the client's first response
  (`Failures.AwaitedIsLost`, `Failures.LostAnswerRun`). A restored server is indistinguishable from the
  original if and only if nothing was awaiting or staged above the frontier, and, for applications that
  look at the retained events, none were retained (`Restoration.RestoreFaithfulExactly`).
- The acknowledgement lists cover what was received if and only if no no-op was accepted as a first
  response (`Acknowledgements.AcksOkExactly`).
- A lag known only through receipts not yet acknowledged is invisible to `needs_recover`
  (`Progress.InvisibleLag`). In every run a request that the server can place is answered by its
  delivery if and only if its answer is buffered or awaited, or it is above the frontier and nothing
  between is missing (`Progress.DeliveryAnswersExactly`); with no such lag some outstanding request is
  always answered or triggers recovery (`Progress.FailoverProgress`).
- A drained run with failovers in which no no-op came first passes every check but the bounds if and
  only if the server has committed the client's unacknowledged receipts
  (`Checker.DrainedFailoverPassesExactly`; `Failures.DrainedFails` and `Failures.DrainedFailsRun` fail it).
- With failovers the server's tables outgrow the window. The staging table has a bound at all, and then
  the window is one, if and only if there are no failovers or the window is at most one
  (`Bounds.StagingBoundedExactly`): late copies of answered requests stay placeable while the frontier
  is far behind (`Failures.StagingUnbounded`), and what a replay overtakes is never removed
  (`Bounds.TableUnbounded`). The buffer keeps within the window if and only if there are no failovers or
  no window (`Bounds.BufferBoundedExactly`): `release_acked` leaves the awaiting set alone
  (`Failures.BufferOverRun`). The client's half of the bounds holds in every run (`Window.ClientBounds`).
- The application is not always called in id order (src/core/color_server.h:33): requests that a replay
  left awaiting run in the order they are retried (`Calls.OutOfOrderRun`). In every run the order is kept
  all along if and only if none of them is answered after a later one was (`Calls.OrderKeptExactly`).
- A recovery signal can take away the held object of a request that stays staged. The staged ids stay
  held if and only if the request that arrives is not one (`Interceptor.OnHttpHoldsExactly`;
  `Interceptor.SignalTakesAway` is one, and the commit after it goes uncounted). No run of the
  protocol contains one (`Interceptor.RunsTakeNothingAway`).
- `parse_string` drops every `\u` escape at or above 0x80. It reads a literal as what it names if and
  only if there is none (`JsonValues.DecodesNameExactly`), so a member that no reader should know can
  overwrite a known one (`JsonUnknown.AccentedOverwrites`). One more member, whatever its value, changes
  nothing if and only if its key is not read as a known one (`JsonUnknown.CheckpointExtraExactly`,
  `JsonUnknown.ReplayExtraExactly`), which follows when it has no such escape and names none
  (`JsonUnknown.NamedUnknown`).
- The JSON of a replay drops payload and hash of request events. A replay survives if and only if its
  request events carry neither (`JsonRoundTrip.ReplayRoundTripsExactly`), which holds of every replay
  the client builds.

Where code and documents differ the code is followed: docs/claude/protocol.md:364-365 gives SHA-256,
the code chains FNV-1a; docs/claude/protocol.md:279 records every first response for acknowledgement,
the code does not record a no-op (src/core/color_client.cc:35-38).

## Model

| member | source | states |
|---|---|---|
| Runs.FailoverSafety | src/core/color_server.cc:6-123 | In every state of every run in which no replay is ingested across a gap, with any number of crashes, arbitrarily old checkpoints, and lost, copied or stale messages and replays, the server's logical history is the client's history cut just after `R<committed_upto>`: a prefix of it ending in that request, of the same length and hash, with the retained events its suffix. |
| Recovery.FailoverSafetyExactly | src/core/color_server.cc:97-115 | Over any run at all, whatever posted replays arrive, the histories match in every state up to a point if and only if no replay before it is ingested across a gap. |
| Runs.HashAgreement | src/core/color_server.cc:65-69 | In every run without a replay across a gap, for any hash function, no mismatch callback of either side, nor of any crashed server, ever fires; every buffered id has a recorded hash, so a checkpoint never falls back to the zero hash. |
| Runs.AtMostOncePerIncarnation | src/core/color_server.cc:36-77 | Across any failovers, each incarnation of the server runs the application at most once per id. |
| Runs.RunAgrees | src/core/color_server.cc:19-123 | The agreement invariant holds in every state of every run. |
| Runs.StepAgrees | src/core/color_server.cc:19-123 | Every enabled step, crash and stale replay without a gap included, preserves agreement. |
| Safety.OnRequestOk | src/core/color_server.cc:19-81 | Delivering any frozen request keeps the server's history, tables and at-most-once log, and every ordinary reply carries the hash of its own cut. |
| Safety.IngestOk | src/core/color_server.cc:97-115 | Ingesting any replay without a gap, however stale, moves the frontier to the later of the two positions and keeps the server's invariant; an empty one changes nothing. |
| Safety.RestoreOk | src/core/color_server.cc:6-17 | A server restored from any valid checkpoint satisfies the server's invariant. |
| Safety.SnapshotOk | src/core/color_server.cc:83-95 | Every checkpoint taken by a valid server is valid: its count and hashes are those of the cut at its frontier. |
| Safety.BuildReplayOk | src/core/color_client.cc:46-63 | A replay built by the client is exactly its history from the given event on. |
| Safety.GenerateExtendsCut | src/core/color_client.cc:6-25 | Generating a request extends the client's history to the next cut, and the request carries that cut's hash. |
| Carried.GeneratedRequest | src/core/color_client.cc:6-25 | In every run a generated request has the next id, the first id not received as its base, what was received since the last one as its list, the payload given, and the hash of its own cut exactly if hashes are sent. |
| Carried.MarkIsLongest | src/core/color_client.cc:10 | In every run the high-water mark of the acknowledgement lists is the length of the longest. |
| Carried.HashesCarried | src/core/color_server.cc:125-134 | In every run, if hashes are sent, every request ever generated and every real answer ever sent carries the hash of its cut, and if not, none; as many requests were sent as generated. |
| Carried.ServerCounts | src/core/color_server.cc:65-69 | When a request is committed alone, the mismatch callback fires exactly if hashes are sent, the request carries one, and it differs from the chained hash of the server's logical history followed by its acknowledgements and itself. |
| Carried.ClientCounts | src/core/color_client.cc:29-33 | On a first response the mismatch callback fires exactly if hashes are sent, the response carries one, and it differs from the one recorded for its id. |
| Carried.ReplayCarries | src/core/color_client.cc:46-63 | In every run each response event of a replay built from any position carries the payload that was delivered for its id and the hash of its cut; request events carry neither. |
| Canon.CutResponse | docs/claude/protocol.md:181-196 | `r<i>` is in the history up to `R<n>` exactly when one of the first n requests acknowledges i. |
| Canon.CutExtend | docs/claude/protocol.md:218-222 | Generating more requests never changes an earlier part of the history. |
| Recovery.OneShotRecovery | src/core/color_server.cc:97-123 | After ingesting the client's replay from the signalled event the server has committed everything generated and holds the client's hash; no request generated so far needs recovery, and each, retried, gets exactly one ordinary reply for its own id. |
| Recovery.DeliverWithRecovery | verification/src/fuzz_main.cpp:119-130 | The loop that tolerates eight recovery rounds runs exactly one when the request needs recovery and none otherwise, and no reply it leaves is a recovery signal. |
| Recovery.IngestAgreesExactlyWithoutGap | src/core/color_server.cc:97-115 | Ingesting a client's replay keeps agreement if and only if it starts within the events held or is empty. |
| Failures.GapDiverges | src/core/color_server.cc:99-101 | From every reachable state in which a server that holds events asks for recovery: the replay is posted, the server crashes to the empty checkpoint, the replay arrives, and the histories no longer match. |
| Failures.GapRun | src/client/color_http_client.cc:79-98 | Such a run exists with a window of one and quiescent checkpoints. |
| Restoration.ReplayIdempotent | src/core/color_server.cc:97-115 | Ingesting a replay without a gap again, after any later requests and replays, changes nothing, even when requests it left awaiting have been answered. |
| Restoration.RestoredAnswersAlike | src/core/color_server.cc:6-17 | A server restored from a checkpoint taken while idle answers every later sequence of requests and replays as the original would, up to the hash on no-ops, in whatever order the buffer was listed: for applications that look at the history's length and hash, and, if no events were retained, for any application. |
| Restoration.RestoreFaithfulExactly | src/core/color_server.cc:83-95 | No sequence of requests and replays tells restored and original apart if and only if nothing was staged above the frontier or awaiting, and, when every application is considered and not only those that look at the history's length and hash, no events were retained. |
| Restoration.ReachableConsistent | src/core/color_server.cc:19-115 | Every reachable server satisfies what the two results above ask of it. |
| Restoration.PerformAllSimilar | src/core/color_server.cc:19-115 | Two servers that agree on frontier, buffer, awaiting set, view of the history and staging above the frontier answer every sequence of requests and replays alike. |
| Answers.NoLostAnswer | src/core/color_server.cc:36-55 | With quiescent checkpoints, across any failovers, every id up to `committed_upto` is buffered, awaiting or received, and a no-op is never the client's first response for an id. |
| Answers.RestoreCoversExactly | src/core/color_server.cc:83-95 | Restoring a checkpoint loses no answer if and only if the client already holds every awaited one. |
| Failures.AwaitedIsLost | src/core/color_server.cc:83-95 | From every reachable state in which a request without an answer is awaited: a checkpoint, a crash to it and a retry give a run in which the client's first response for it is a no-op. |
| Failures.LostAnswerRun | src/core/color_server.cc:49-52 | Such a run exists with a window of one. |
| Acknowledgements.AcknowledgementStructure | src/core/color_client.cc:6-44 | In every run: the acknowledgement lists followed by the pending one are the deliveries in receipt order, each once; they contain every received id if and only if no no-op was accepted as a first response; `base` is the first missing id; `inflight` is generated minus received; no event repeats, and every `r<i>` follows `R<i>`. |
| Acknowledgements.RunLogged | src/core/color_client.cc:27-44 | In every run, what was received is exactly what is acknowledged or about to be and what a no-op silenced, never both. |
| Acknowledgements.AcksOkExactly | src/core/color_client.cc:35-38 | The lists partition what was received if and only if no no-op was accepted as a first response. |
| Acknowledgements.RunAcks | src/core/color_client.cc:27-44 | Which is so in every crash-free run and every run with quiescent checkpoints. |
| Acknowledgements.OrderIsReceiptOrder | docs/claude/protocol.md:194-216 | In every run `r<i>` precedes `R<X>` exactly when an answer to i was delivered before X was generated, that is, when i was received by then if no no-op was accepted first. |
| CrashFree.NeverSignalsRecovery | src/core/color_server.cc:117-123 | In a crash-free run no delivery of any request, however late or often, signals recovery. |
| CrashFree.TotalOrder | src/core/color_server.cc:57-77 | In a crash-free run the server's history is a prefix of the client's and the application is called for 1, 2, 3, ... in order. |
| CrashFree.CausalView | docs/claude/protocol.md:224-230 | In a crash-free run the history and payload the application sees for n are the client's right after generating n. |
| CrashFree.ExactlyOnce | src/core/color_server.cc:57-77 | In a crash-free run the call counts are 1 on exactly 1..`committed_upto`, and every payload delivered to the client is the output of that one call. |
| Commits.CommitLoopAnswers | src/core/color_server.cc:57-77 | The loop commits exactly the unbroken run of staged ids above the frontier, answers each once in order with a real answer, leaves the rest of staging as it was, and stops where the next id is missing. |
| Window.TightBounds | src/core/color_server.cc:136-151 | With at most W outstanding, every crash-free run keeps the response buffer at most W, staging below W when not empty, every acknowledgement list at most W, and requests minus responses at most W at every request of the history; the high-water marks likewise. |
| Window.ClientBounds | src/core/color_client.cc:6-44 | In every run, with or without failovers, what is outstanding and what waits to be acknowledged fit the window together, and so does every acknowledgement list. |
| Window.PrefixBounds | src/core/color_client.cc:6-25 | In every run, with or without failovers, in which no no-op came first, requests minus responses stay within the window at every request of the history. |
| Window.FailoverBounds | src/core/color_server.cc:136-151 | In every run, with or without failovers: the buffer fits the window while it holds nothing acknowledged by the frontier; what is staged above the frontier fits it while none of it was received. |
| Window.BufferBound | src/core/color_server.cc:136-146 | What is buffered was requested and not acknowledged: when requests minus responses stay at most W at every request of the history, so does the buffer. |
| Window.StagingBound | src/core/color_server.cc:57-63 | While nothing staged above the frontier was received, no more is staged there than is outstanding, and less when the missing request in front is outstanding too. |
| Tightness.BoundsAttained | verification/src/checker.h:97-106 | For every window W there is a crash-free run that reaches W buffered responses, W-1 staged requests and W acknowledgements in one request, so no smaller bound holds. |
| Failures.StagingUnbounded | verification/src/checker.h:97-106 | For every window of at least three and every n there is a run with one crash and one outstanding request that stages n requests above the frontier, so it fails the check for every smaller bound. |
| Failures.BufferOverRun | src/core/color_server.cc:136-146 | For every window W of at least one there is a run with one crash and quiescent checkpoints that buffers more than W responses. |
| Bounds.TableUnbounded | src/core/color_server.cc:97-115 | For every window of at least two and every n there is a run with nothing outstanding whose staging table holds n requests. |
| Bounds.StagingBoundedExactly | verification/src/checker.h:100-103 | The staging table has a bound over all reachable states, and then the window is one, if and only if there are no failovers or the window is at most one. |
| Bounds.BufferBoundedExactly | verification/src/checker.h:97-100 | The response buffer keeps within the window in all reachable states if and only if there are no failovers or no window. |
| Bounds.BoundsHoldExactly | verification/src/checker.h:97-106 | All the checked bounds hold of every reachable state, with the window as the bound, if and only if there are no failovers or no window. |
| Bounds.RunNarrow | src/core/color_server.cc:117-123 | With a window of one, whatever crashes, every request acknowledges all before it and nothing is ever staged. |
| Calls.DeliveryCalls | src/core/color_server.cc:36-77 | What one delivery calls the application for: the requests it commits, in id order, each seeing the history up to itself; or the request alone if it awaits, seeing the history up to the frontier; or nothing. |
| Calls.CallsSawCuts | src/core/color_server.h:31-35 | In every run, whatever crashed, each call was for a request of the client's and saw the history cut at or after that request and never past the frontier. |
| Calls.CountsTally | src/core/color_server.cc:47-72 | Whatever requests and replays a server is given from its start or from any checkpoint on, the count kept for each id is the number of times the application was called for it. |
| Replies.DeliveryReplies | src/core/color_server.cc:19-81 | Everything a server replies to any request. It asks for a replay from the end of what it holds and changes nothing; or gives one answer to a committed request: the buffered payload, else, if awaited, the output of the call just made, which is then buffered, else a no-op; or answers each request it commits, in id order, with the output of the call made for it, which is then buffered. Each answer has the recorded hash if hashes are sent. |
| Replies.DeliveryReleases | src/core/color_server.cc:136-146 | For any request that needs no recovery and does not acknowledge itself: after it nothing below its base and nothing in its list is buffered; everything else that was buffered still is, with its payload; and up to the old frontier nothing new is, but the request itself. |
| Replies.FrozenReleases | src/core/color_server.cc:136-146 | The same in every run, for every request ever generated that needs no recovery. |
| Replies.AnswersGenuine | src/core/color_server.cc:36-77 | In every run, across any crashes and replays: every real answer ever sent, every payload buffered or saved in a checkpoint, and every payload the client delivered or keeps is the output of a call the application was given for that very id, by this server or one before it. |
| Calls.OrderKeptExactly | src/core/color_server.h:31-35 | In every run the application is called in id order, in each incarnation, all along if and only if no awaited request is answered after a later one was. |
| Calls.OutOfOrderRun | src/core/color_server.cc:42-48 | A run with one crash in which the application is called for 3 and then for 2. |
| Failures.DrainedFails | verification/src/checker.h:87-95 | From every reachable state with nothing outstanding and something generated, a crash to the empty checkpoint leaves nothing outstanding and a liveness check that fails. |
| Failures.DrainedFailsRun | verification/src/checker.h:87-95 | So it happens after one answered request, which stays unacknowledged. |
| Progress.FailoverProgress | src/core/color_server.cc:24-55 | With quiescent checkpoints, in every reachable state where something is outstanding and no unacknowledged receipt is ahead of the server, some outstanding frozen request, when delivered, yields a real answer for itself or triggers recovery. |
| Progress.DeliveryAnswersExactly | src/core/color_server.cc:36-77 | In every run a request of the client's that needs no recovery gets a real answer from its own delivery if and only if it is committed and its answer is buffered or awaited, or it is above the frontier and every id between is staged. |
| Progress.OutstandingAtHand | src/core/color_server.cc:57-77 | Where no answer is lost, that is, for an outstanding request, if and only if every id between the frontier and it is staged. |
| Progress.AcknowledgerOutstanding | src/core/color_client.cc:6-44 | If a received id is past the server's frontier, and no pending acknowledgement is, the chain of acknowledgements leads to an outstanding request that makes the server ask for recovery. |
| Progress.Drain | verification/src/fuzz_main.cpp:165-175 | From every such state a schedule of at most five steps per outstanding request leaves nothing outstanding. |
| Progress.DrainedAgrees | verification/src/checker.h:63-95 | Once nothing is outstanding and the server has caught up, everything issued is committed and received, and both sides have the same hash and event count. |
| Progress.LowestRound | verification/src/fuzz_main.cpp:165-175 | In a crash-free run, delivering the lowest outstanding request and then its answer takes exactly that request off, without recovery. |
| Progress.EveryRunDrains | verification/src/fuzz_main.cpp:165-175 | Every crash-free run can be continued to one with nothing outstanding in one round trip per outstanding request. |
| Progress.EveryFailoverRunDrains | verification/src/fuzz_main.cpp:165-175 | Every run with failovers and quiescent checkpoints, with room in the window, can be continued by one more request and at most five steps per outstanding one until nothing is outstanding, all is committed and both hashes agree. |
| Progress.InvisibleLag | src/core/color_server.cc:117-123 | A run with one failover after which an outstanding request, after any number of delivered copies, gets neither an answer nor a recovery signal. |
| Checker.FirstDivergence | verification/src/checker.h:53-60 | Finds the first index at which two histories differ within their common length, exactly when neither is a prefix of the other. |
| Checker.CheckHistories | verification/src/checker.h:47-61 | Reports nothing if and only if the server's history is a prefix of the client's. |
| Checker.CheckCounts | verification/src/checker.h:82-85 | Reports nothing if and only if every call count is one. |
| Checker.CheckAnswered | verification/src/checker.h:92-95 | Reports nothing if and only if every issued id was received. |
| Checker.CheckRun | verification/src/checker.h:41-108 | Accepts if and only if the safety, hash, exactly-once, liveness and bound conditions all hold. |
| Checker.DrainedRunPasses | verification/src/checker.h:41-108 | Every crash-free run with nothing outstanding satisfies all the checker asks, with the window itself as the bound. |
| Checker.DrainedFailoverPassesExactly | verification/src/checker.h:41-108 | In every run in which no no-op came first, with or without failovers, once nothing is outstanding every condition but the bounds holds if and only if the server has committed the client's unacknowledged receipts. |
| Harness.RunOne | verification/src/fuzz_main.cpp:57-193 | For any schedule of arrivals, losses, copies, deliveries, checkpoints and failovers, each is carried out in turn on the real objects, and the verdict depends on liveness and the bounds alone; without failovers a run with nothing outstanding passes. |
| Harness.SafetyNeverFails | verification/src/checker.h:46-85 | In every reachable state liveness implies the safety, hash and exactly-once conditions. |
| Harness.DeliveryPath | verification/src/fuzz_main.cpp:116-139 | A delivery with its recovery resolved inline is a path of the transition system that changes nothing but the server and what it sent. |
| Harness.Simulation.Decide | verification/src/fuzz_main.cpp:101-163 | Each choice does to client, server, links and checkpoint exactly what the simulation says, and leaves the objects in a reachable state of the transition system. |
| Harness.Simulation.NewRequest | verification/src/fuzz_main.cpp:103-112 | A request is generated and put on the link exactly when fewer than the window are outstanding. |
| Harness.Simulation.DeliverRequest | verification/src/fuzz_main.cpp:116-139 | The server handles a request from the link, after one replay if needed, and its replies are put on the other link. |
| Harness.Simulation.FailOver | verification/src/fuzz_main.cpp:152-162 | While failovers remain the server is replaced by one restored from the last checkpoint, and the client is untouched. |
| Client.ColorClient.Generate | src/core/color_client.cc:6-25 | The object's new state and the returned request are those of the functional client; the request is frozen for retransmission. |
| Client.ColorClient.Receive | src/core/color_client.cc:27-44 | The object's new state is that of the functional client; true exactly for a first response. |
| Client.ColorClient.ReplayFrom | src/core/color_client.cc:46-63 | The loop builds the client's history from the given event on, with payload and hash of each response. |
| Client.ColorClient.Outstanding | src/core/color_client.cc:65-70 | Lists each unanswered id exactly once. |
| Client.AdvanceBaseIsFirstMissing | src/core/color_client.cc:39-40 | The base stops at the first id not received, passing over none that is missing. |
| Server.ColorServer.Handle | src/core/color_server.cc:19-81 | The object's new state and its replies are those of the functional server, about which `Replies.DeliveryReplies` says what they are. |
| Server.ColorServer.Advance | src/core/color_server.cc:57-77 | The in-place commit loop reaches the state and the replies of the recursive one. |
| Server.ColorServer.ReleaseAcked | src/core/color_server.cc:136-146 | After both erase loops a response is buffered exactly if it was, is at or above the base and is not listed, with the payload it had. |
| Server.ColorServer.Recovering | src/core/color_server.cc:117-123 | True exactly when the acknowledgement names something past the frontier. |
| Server.ColorServer.Snapshot | src/core/color_server.cc:83-95 | Lists each buffered response exactly once with its payload and recorded hash, in any order. |
| Server.ColorServer.Resume | src/core/color_server.cc:6-17 | The restoring loop reaches the restored state. |
| Server.ColorServer.IngestReplay | src/core/color_server.cc:97-115 | The loop with its skipped prefix reaches the state of ingesting exactly the events not held. |
| History.AppendAllRepresents | src/core/color_history.cc:46-50 | Appending keeps a history, resumed or not, the representation of a longer logical one: count, hash and retained suffix. |
| History.History.AppendBlock | src/core/color_client.cc:12-13 | Appends the acknowledgements in order and then the request, and returns the hash after it. |
| Interceptor.OnHttpConserves | src/server/color_interceptor.cc:104-145 | Whatever the request and whatever the core answers, every object given so far is exactly one of held, replied to once, or aborted once. |
| Interceptor.CallsConserve | src/server/color_interceptor.cc:90-145 | The same over any sequence of requests and replays. |
| Interceptor.OnHttpHoldsExactly | src/server/color_interceptor.cc:115-141 | Whatever request arrives: every staged id above the frontier keeps a held object if and only if the recovery signal for the request does not take one away, and no commit of the core made now goes uncounted. |
| Interceptor.SignalTakesAway | src/server/color_interceptor.cc:115-127 | A second request under a staged id that acknowledges more than the core has leaves the id staged with nothing held, and the commit that follows goes uncounted. |
| Interceptor.OnHttpSameKeys | src/server/color_interceptor.cc:115-140 | A request that needs no recovery keeps the held ids exactly the staged ones. |
| Interceptor.ReplayKeepsHeld | src/server/color_interceptor.cc:90-102 | Ingesting any replay keeps every staged id above the frontier held. |
| Interceptor.RunsTakeNothingAway | src/core/color_client.cc:22 | In every reachable state of the protocol no request takes an object away: what is staged under its id is itself, and could be placed when it was staged. |
| Interceptor.ColorInterceptor.OnRequest | src/server/color_interceptor.cc:104-145 | For every request: the object's new state is the functional one; the staged ids stay held if and only if the signal takes none away; until one has been, fewer than `checkpoint_every_` loop commits follow the last checkpoint; a checkpoint written now is one of the core's present state. |
| Interceptor.ColorInterceptor.MaybeCheckpoint | src/server/color_interceptor.cc:160-167 | Writes exactly when enough commits have been counted, and then starts counting again. |
| Interceptor.ColorInterceptor.OnReplay | src/server/color_interceptor.cc:90-102 | The core has ingested the replay; held objects, fates, counters and the saved checkpoint are as before, and so is that staged ids are held. |
| Fates.OnHttpReplies | src/server/color_interceptor.cc:104-145 | For any request: an object is aborted exactly if it was held under the arriving id; a request that needs recovery gets one 503 with the core's event count and nothing else is replied; otherwise each response of the core goes once, with 200, to the object held under its id, every other object stays held, and the commits counted are the real answers sent. |
| Fates.FrontRecovers | src/server/color_interceptor.cc:90-128 | A request refused with the signal, the replay the client builds from the position it was told, and the same request again: the core has committed everything generated, and the new object gets exactly one reply, a 200 for its own id. |
| Wire.AnswerArrives | src/client/color_http_client.cc:56-66 | What `Complete` writes (src/server/color_interceptor.cc:79-88) the client reads as the same answer: id, payload, no-op mark, and the hash if hashes are sent. |
| Wire.SignalArrives | src/client/color_http_client.cc:47-52 | What is written for a recovery signal the client recognises, and reads the position to replay from. |
| Wire.BootsExactly | src/server/color_interceptor.cc:33-57 | From a file that holds a beginning of a printed checkpoint the server is restored to it if the whole is there, and starts afresh otherwise. |
| Wire.RecoversOverTheWire | src/client/color_http_client.cc:33-98 | In every reachable state, with every message in its text: a request that needs recovery is refused, the client reads from the reply where to replay from, the replay it prints is accepted and brings the server to everything generated, and the same request sent again gets one reply, which the client reads as the answer to it. |
| Decimal.ReadsBack | src/server/color_interceptor.cc:28-31 | Every 64-bit number survives `to_string` and `strtoull`, whatever non-digit follows. |
| Decimal.ReadsAny | src/server/color_interceptor.cc:28-31 | What any text is read as: white space, a sign or none, digits up to the first other character; a magnitude of 2^64 or more saturates, and a minus sign negates modulo 2^64. |
| Headers.CsvRoundTrip | src/server/color_interceptor.cc:15-26 | Every list of 64-bit ids, the empty one included, survives joining and splitting in order. |
| Headers.CsvReadsFields | src/server/color_interceptor.cc:15-26 | Any fields joined by commas are read in order, empty ones, however many, skipped. |
| Headers.ReadCsv | src/server/color_interceptor.cc:15-26 | The index loop splits any text as the recursive definition does, empty fields skipped. |
| Headers.HeaderLines | src/client/color_http_client.cc:18-31 | The loop prints the header lines of the request. |
| Headers.HeaderRoundTrip | src/server/color_interceptor.cc:68-77 | Every request with 64-bit fields survives its header lines: id, base, acknowledgements in order, and the hash, present or absent. |
| Headers.MissingDefaults | src/server/color_interceptor.cc:68-77 | Whatever the lines: a missing id is 0, a missing base 1, a missing list empty, and a missing hash none. |
| JsonScalars.StringReadsBack | src/wire/failover_json.cc:58-96 | Any characters at all survive as a string literal, quotes, backslashes, control characters and NUL included. |
| JsonScalars.EscapeIsJson | src/wire/failover_json.cc:11-32 | What is printed between quotes satisfies section 7 of RFC 8259. |
| JsonScalars.HexReads | src/wire/failover_json.cc:75-83 | Four hexadecimal digits, each in either case, are read as the number they spell. |
| JsonRoundTrip.CheckpointRoundTrip | src/wire/failover_json.cc:136-189 | Every checkpoint of 64-bit values survives printing and parsing. |
| JsonRoundTrip.CheckpointTolerant | src/wire/failover_json.cc:153-189 | A checkpoint is read as itself however it is laid out: any white space between tokens, its members and those of its buffer in any order, keys and strings in any spelling that reads as them, members with any other key literal and any well-formed value anywhere among them, any text after it. |
| JsonLayout.MembersRead | src/wire/failover_json.cc:157-186 | For any handling of members: an object with each of its own members once, in any order, and in between any others whose key literal is not read as a known key, is read as the value its own members say. |
| JsonLayout.ExtraIgnoredExactly | src/wire/failover_json.cc:157-186 | One more member in any object, with any key literal, changes nothing whatever its value if and only if its key is not read as a known one. |
| JsonUnknown.CheckpointExtraExactly | src/wire/failover_json.cc:153-189 | The same for a whole checkpoint document. |
| JsonUnknown.ReplayExtraExactly | src/wire/failover_json.cc:209-244 | The same for a whole replay document. |
| JsonUnknown.BufferedExtraExactly | src/wire/failover_json.cc:165-176 | The same for an object of the buffer. |
| JsonUnknown.EventExtraExactly | src/wire/failover_json.cc:220-232 | The same for an event of a replay. |
| JsonUnknown.NamedUnknown | src/wire/failover_json.cc:73-86 | A key literal without a `\u` escape at or above 0x80 that names no known key is not read as one. |
| JsonUnknown.AccentedOverwrites | src/wire/failover_json.cc:73-86 | A replay with a member whose key names something other than `from` but has such an escape is accepted with that member's value as its `from`. |
| JsonValues.DecodesNameExactly | src/wire/failover_json.cc:58-96 | The parser reads a string literal as the code units that section 7 of RFC 8259 says it names if and only if it has no `\u` escape at or above 0x80. |
| JsonRoundTrip.ReplayRoundTripsExactly | src/wire/failover_json.cc:191-244 | A replay survives printing and parsing if and only if its request events carry neither payload nor hash. |
| JsonRoundTrip.BuiltReplayRoundTrip | src/core/color_client.cc:46-63 | Every replay the client can build survives. |
| JsonRoundTrip.ReplayTolerant | src/wire/failover_json.cc:209-244 | The same for replays: layout, order, spelling of keys and strings, and members whose key is not read as a known one do not change what is read. |
| JsonCut.CheckpointCut | src/wire/failover_json.cc:153-189 | A checkpoint that breaks off anywhere, however it is laid out, is rejected. |
| JsonCut.ReplayCut | src/wire/failover_json.cc:209-244 | The same for replays. |
| JsonCut.PrintedCheckpointWhole | src/wire/failover_json.cc:136-189 | Of the beginnings of a printed checkpoint exactly the whole is accepted. |
| JsonCut.PrintedReplayWhole | src/wire/failover_json.cc:191-244 | The same for replays. |
| JsonAccepted.AcceptedCheckpoint | src/wire/failover_json.cc:153-189 | Any text that is accepted begins, after white space, with an object whose members each have a key literal, a colon, a value of the kind that its key as read calls for, down to the objects of the buffer, and a comma unless the closing brace follows; that brace is in the text. |
| JsonAccepted.AcceptedReplay | src/wire/failover_json.cc:209-244 | The same for replays and their events. |
| JsonValues.SkipsValue | src/wire/failover_json.cc:114-130 | Every well-formed value, nested to any depth, is stepped over exactly, up to the white space before a comma, a closing bracket or the end, and raises no error. |
| JsonValues.TextSound | src/wire/failover_json.cc:118-127 | In the text of any value skipping at any depth comes out at the same depth, so counting one kind of bracket finds the matching end; in a text that breaks off it runs to the end. |
| JsonCodec.FromJsonCheckpoint | src/wire/failover_json.cc:153-189 | On any input the nested loops end, never move past the end, and accept and produce what the functional parser does, about which `JsonAccepted` and `JsonCut` say what is rejected. |
| JsonCodec.FromJsonReplay | src/wire/failover_json.cc:209-244 | The same for replays. |
| JsonCodec.ToJsonCheckpoint | src/wire/failover_json.cc:136-151 | The appending printer builds the text whose parsing is proved to return the checkpoint. |
| JsonCodec.ToJsonReplay | src/wire/failover_json.cc:191-207 | The same for replays. |
| JsonCodec.AppendEscaped | src/wire/failover_json.cc:11-32 | The loop appends the quoted and escaped text. |
| JsonCodec.Parser.ParseString | src/wire/failover_json.cc:58-96 | On any input moves to where the functional reader does and returns its string; never past the end. |
| JsonCodec.Parser.ParseU64 | src/wire/failover_json.cc:98-103 | Takes the run of digits and signs and returns what `strtoull` makes of it. |
| JsonCodec.Parser.SkipAny | src/wire/failover_json.cc:114-130 | On any input moves to where the functional skip does; never past the end. |
| JsonCodec.Parser.SkipNested | src/wire/failover_json.cc:118-127 | The depth-counting loop stops where the functional one does. |

## Left out

- The FNV-1a byte mixing and `Event::str` (src/core/color_history.cc:10-44): every result holds for any hash step, and nothing depends on collisions being rare.
- 64-bit wrap-around of ids and counts in the protocol: ids are unbounded naturals there; the codecs bound every value to 64 bits.
- Equality of answers between two incarnations of the server: the application may answer differently when an unanswered request is processed again.
- The loops of `ColorHttpClient::send` and `recover`, and the curl transport: sleeps and retry plumbing; deliveries and replays are steps of the transition system.
- HTTP itself: header lines reach the interceptor as printed, and reply headers reach the client under lower-case names, without trimming.
- Locks and the thread pool: the core is always called under one lock, so each call is one step.
- The file system and the atomic rename of the checkpoint file: a file is the text in it.
- The simulation's clock, latencies, probabilities and statistics: any order and number of choices is allowed, which includes every seeded run; the drain loop's cap is not modelled, so `Progress` gives schedules that drain rather than a probability.
- The texts of the checker's failure messages, `History::str`, `Parser::parse_bool` (unused), command-line parsing.
- Wire.RecoversOverTheWire: is for requests and replays of 64-bit values, as the codecs are.
- Interceptor.ColorInterceptor.OnRequest: counts commits of the commit loop; requests committed by ingesting a replay, and the single replies to requests a replay left awaiting, are not loop commits.
- Window.TightBounds: is for crash-free runs, since both server bounds fail with failovers (`Failures.StagingUnbounded`, `Failures.BufferOverRun`); `Window.ClientBounds`, `Window.PrefixBounds` and `Window.FailoverBounds` say what stays.
- Progress.FailoverProgress: needs checkpoints taken while nothing awaits; without that an answer can be lost (`Failures.AwaitedIsLost`).
- JsonRoundTrip.CheckpointTolerant: numbers of known members stand in plain decimal digits, since the parser reads neither fractions nor exponents, and a known key does not occur twice.
- Window.StagingBound: counts what is staged above the frontier; the whole table has no bound with failovers (`Bounds.StagingBoundedExactly`).
- Window.FailoverBounds: gives conditions on one state that suffice; the exact conditions over all reachable states are those of `Bounds`.
