# Verified models of a lab MITM proxy

This project models the parts of the proxy whose correctness spans many functions, and proves
what they promise for every input, every run and every interleaving. It is written in Dafny 4.11;
`dafny verify dfyconfig.toml` checks all of it. Nothing here was executed: every claim is one the
verifier accepts.

| part | modules | main results |
|---|---|---|
| HTTP/2 flow control and streams (`internal/http2x`) | `Windows`, `Receive`, `Delivery`, `ServeConn`, `ServeDelivery`, `OriginConn`, `OriginDelivery`, `Teardown`, `Framing` | receive-window conservation on both hops, body bytes delivered in order over every run, tables and windows told exactly by the events, takes granted exactly when both windows are open, send-window accounting across SETTINGS with int32 wrap-around, inert dead streams, exactly-once teardown, message-preserving framing |
| Flow inbox (`internal/store`) | `Flows`, `InboxSpec`, `InboxLaws`, `InboxRuns`, `InboxEffects`, `Spill`, `InboxStore`, `InboxMemory`, `InboxPatch`, `InboxApi`, `InboxReads`, `Breakpoints`, `InboxWaiters`, `Paging` | invariant over every run, dry run agrees with the loop, all-or-nothing Resume told field by field, both caps kept in the bytes callers see, spill invisible over whole runs and calls lost exactly by file failures, one result per breakpoint waiter and none for rows that are not paused, paging lists every row once |
| WebSocket relay (`internal/wsx`, `internal/proxy/ws.go`, `internal/rules`) | `Bytes`, `WsCodec`, `WsRelay`, `Rules` | canonical codec in both directions, chunked tee equals whole unmasking, byte-transparent pump, verdicts by the first rule that matches, capture caps under any interleaving, lazy payload loading refines eager |
| Revision-checked apply (`internal/app`) | `Recency`, `Idempotency`, `Changes`, `Server` | linked LRU on the heap refines a recency list, generations count commits that name both revisions, at most one commit per key |
| gRPC trees (`internal/grpcx`, `internal/model`) | `Varint`, `Grpc`, `ProtoTrees` | linear size bound, framing and tree round trips, cuts report truncation |
| Pacing (`internal/rules/limit.go`) | `Limit` | pauses total exactly what the rate owes, for any chunking |
| shared notions | `Options`, `Lists` | optional values, lists of ids without repetition |

## How it is modelled

An object whose methods update fields is a class (`OutFlow`, `InFlow`, `BodyBuf`, `IdempCache`,
`AppServer`, `LimitedReader`, `Memory`), a loop is a method with invariants, and each is proved
against a function on the value it holds. Concurrency is a transition system: one step is one
critical section or one frame, and runs are arbitrary sequences of steps. The rows of the inbox,
its counters and its files are kept in one value (`InboxStore.Store`) that the class
`InboxApi.Memory` reassigns under its lock. Integer widths are explicit where they matter: int32 send
windows, 64-bit lengths, 32-bit gRPC lengths, int64 pacing products.

The hypotheses are those of the source. The framer hands out no payload longer than its frame;
ULIDs are fresh; the proxy's capture code sets every Size to the captured length or leaves it
unset (`Flows.Captured`); options passed `normalizeOptions`; io.Reader returns no more than it
was asked for.

## What the proofs found

- A PUSH_PROMISE that names the id of a live request stream resets that stream's receive window:
  `OriginConn.PromisedRequestIdBreaksStreamLaw` says exactly when that breaks the stream law, and
  `OriginConn.BrokenStreamLawIsReached` is a run that does. The connection law holds regardless.
- A cancelled WaitPaused reports a later pause's end if the row was paused and ended again before
  it re-took the lock (`Breakpoints.CancelReportsOwnEndIff`, `Breakpoints.CancelCanReportLaterPause`).
- A Plan that names a stale revision forgets the recorded commit of its key, after which the same
  request can commit twice (`Changes.PlanLosesRecordIff`, `Changes.MixedRunCommitsTwice`).
- ExpireBreakpoint re-stamps a row without moving it. When the order stays sorted is exact in
  `InboxRuns.ExpireSortedIff`; `InboxRuns.UnsortedIsReached` is a run that unsorts it.
- Promising the id of a finished request stream gives it a send window again, which an upload still
  waiting for window then takes from the connection (`OriginConn.PromiseRevivesDeadIff`,
  `OriginConn.RevivedStreamSpends`).
- Get reads a row under the lock and its spill files after it. A Resume in between that replaces a
  spilled body makes it return the old headers and size with the new body, or, if the new body is not
  spilled, a spill error for a row that was there all along (`InboxReads.GetAroundResume`,
  `InboxReads.TornGet`). `InboxReads.Get` says exactly when the answer is the row it saw.
- A close frame of length one is forwarded on the fast path and refused on the rules path, and no
  other complete frame that hits no rule is treated differently (`WsRelay.PathsSendAlikeIff`,
  `WsRelay.HalfCodeCloseDiffers`). Of a frame that its source breaks off the fast path has forwarded
  what there was, and the rules path nothing if a rule needed the payload. The two paths can record different close codes
  (`WsRelay.CloseCodesAgreeIff`, `WsRelay.CloseCodesCanDiffer`).
- Cutting a gRPC tree adds a label, so a tree can stay over the cap with nothing left to cut
  (`Flows.CapTreeKept`, `Flows.LabelsCanExceedCap`).
- The resident size of a decoded gRPC body is at most eight times its length, tighter than nine.

## Model

| member | source | states |
|---|---|---|
| Windows.SendWindowsBalance | internal/http2x/flow.go:35-155 | after any sequence of opens, forgets, credits, SETTINGS changes and takes, each send window equals its initial value plus credit minus bytes taken, modulo 2^32 |
| Windows.SendWindowsExact | internal/http2x/flow.go:50-78 | while balances fit 32 bits, stream minus initial window is credit minus taken, however often the initial window changed, and connection is 65535 plus credit minus taken |
| Windows.ConnWindowNonNegative | internal/http2x/flow.go:104-155 | the connection window never goes negative in a run whose peer keeps section 6.9.1 of RFC 9113 |
| Windows.ConnCreditFitsExactly | internal/http2x/flow.go:50-64 | one credit keeps a non-negative connection window non-negative if and only if the sum fits 2^31-1 |
| Windows.TakeWithinEveryLimit | internal/http2x/flow.go:104-155 | a grant is at least 1 and within the request, both windows and the frame limit, is as large as one of them, charges exactly the two windows; a refusal changes nothing |
| Windows.DeadStreamIsInert | internal/http2x/flow.go:43-64 | a run in which a forgotten id is not reopened leaves the same windows as the run without its takes and credits |
| Windows.OutFlow.TakeDeadline | internal/http2x/flow.go:104-155 | each refusal has its own cause, in the order nothing wanted, closed, late, no such stream; the call waits exactly while a window is used up, and is then granted the largest amount within the request, both windows and the frame limit, from the windows as other goroutines left them, which it charges |
| Windows.OutFlow.TryTake | internal/http2x/flow.go:114-155 | one pass of the loop, with the same causes: blocked if and only if one of the two windows is used up, and otherwise the largest amount there is |
| Windows.OutFlow.ApplyInitialWindow | internal/http2x/flow.go:66-78 | the loop shifts every open stream by the change of the initial window, whatever the map order |
| Windows.OutFlow.Add | internal/http2x/flow.go:50-64 | credits connection or open stream with int32 wrap-around, and ignores unknown streams |
| Windows.OutFlow.Open | internal/http2x/flow.go:35-41 | opens at the current initial window unless open or closed |
| Windows.OutFlow.Forget | internal/http2x/flow.go:43-48 | removes the stream's window and nothing else |
| Windows.OutFlow.SetMaxFrame | internal/http2x/flow.go:80-91 | clamps the frame limit to 16384..2^24-1 |
| Windows.InFlow.Take | internal/http2x/flow.go:168-181 | verdict and new windows of a charge, including the connection charge that a stream-level refusal leaves behind |
| Windows.InFlow.Credit | internal/http2x/flow.go:183-190 | credits the connection, and the stream if it is still open |
| Windows.BodyBuf.Write | internal/http2x/body.go:30-42 | appends behind the bytes buffered so far; refuses bytes for a closed body, which stays as it was |
| Windows.BodyBuf.Read | internal/http2x/body.go:73-103 | hands out the front of the buffer in order and credits it unless it was released; exactly when it waits, times out, fails or ends |
| Windows.BodyBuf.CloseWithError | internal/http2x/body.go:118-139 | the first close decides how the body ends, and closing drops no byte |
| Windows.BodyBuf.ReleaseConnWindow | internal/http2x/body.go:141-152 | gives the unread bytes back once and never again |
| Receive.DropSound | internal/http2x/serve.go:188-223 | teardown gives the connection window back exactly the unread bytes of the stream |
| Receive.BufferedSound | internal/http2x/serve.go:301-318 | an accepted DATA frame keeps the books: payload unread, padding credited at once |
| Receive.ReturnSound | internal/http2x/serve.go:290-312 | a refused or stray frame's whole length goes back to the connection window |
| Receive.ReadBodySound | internal/http2x/body.go:73-103 | a Read moves bytes from unread to credited once, also after teardown |
| Delivery.VerdictExactly | internal/http2x/serve.go:282-325 | a DATA frame ends the connection, is refused, strays or is buffered by the windows, the table and whether the body is open, in that order |
| ServeConn.ReceiveWindowConservation | internal/http2x/serve.go:160-321 | in every reachable state of a live connection, connection window plus unread bytes of live bodies is 1 MiB, likewise per stream; so at most 1 MiB is buffered and every byte is credited at most once |
| ServeConn.OpenCountsTheTable | internal/http2x/serve.go:188-355 | open equals the number of streams in the table and never passes the limit |
| ServeConn.DeadStreamSpendsNothing | internal/http2x/serve.go:327-355 | once a stream is dead, for the rest of the run no take or WINDOW_UPDATE for its id changes any window |
| ServeConn.RunInv | internal/http2x/serve.go:160-355 | the table, both window directions and the bodies agree in every reachable state of a live connection |
| ServeDelivery.BytesArriveInOrder | internal/http2x/serve.go:282-325 | in every run and for every stream, the bytes its Reads handed out and then those still buffered are the payloads of its accepted DATA frames in arrival order, also after teardown and after the connection died |
| ServeDelivery.TableExactly | internal/http2x/serve.go:188-355 | after every run, which event opens a stream, which one takes it out of the table and which one ends the connection, and nothing else does |
| ServeDelivery.RunTells | internal/http2x/serve.go:188-325 | in every reachable state of a live connection a stream's body is closed exactly when END_STREAM, trailers or its consumer closed it, its handler is marked done exactly when it returned, and a stream both ended and returned is gone |
| ServeDelivery.SendWindowsTold | internal/http2x/serve.go:160-355 | the send windows of every reachable state are those of its events: one window per opened stream until it leaves, every WINDOW_UPDATE and SETTINGS change applied, every take charged; so each is the balance of its ledger |
| ServeDelivery.EveryByteIsCharged | internal/http2x/serve.go:282-325 | the bytes charged are the wire lengths of the DATA frames within the connection window, padding included, and all that is no longer unread was given back |
| OriginConn.ReceiveWindowConservation | internal/http2x/origin_conn.go:411-690 | the connection law on the origin hop across pushes, failures, resets and early responses; the stream law for every id never promised; captured pushes stay within their cap |
| OriginConn.DeadStreamSpendsNothing | internal/http2x/origin_conn.go:236-280 | a finished request stream never spends or regains send window for the rest of the run, as long as the origin has not promised its id |
| OriginConn.PromiseRevivesDeadIff | internal/http2x/origin_conn.go:692-746 | promising a dead id gives it a send window again if and only if pushes are captured and the windows are open |
| OriginConn.RevivedStreamSpends | internal/http2x/origin_conn.go:692-746 | a run on which it does, and the reset stream's upload then spends a byte of the connection window |
| OriginConn.PromisedRequestIdBreaksStreamLaw | internal/http2x/origin_conn.go:692-746 | promising a live request id keeps the stream law if and only if nothing was unread |
| OriginConn.BrokenStreamLawIsReached | internal/http2x/origin_conn.go:692-746 | from any fresh connection that captures pushes, a request, one response byte and a promise of the request's id break the stream law |
| OriginConn.RunInv | internal/http2x/origin_conn.go:218-951 | request table, push table and windows agree in every reachable state of a live connection |
| OriginDelivery.BytesArriveInOrder | internal/http2x/origin_conn.go:632-670 | the same for response bodies: what Reads handed out and what is buffered are the accepted payloads in arrival order, whatever is promised, also after the stream or the connection is gone |
| OriginDelivery.PushesArrive | internal/http2x/origin_conn.go:664-746 | over every run an awaited push holds the payloads since its promise, and OnPush was handed, in order, each push that ended or outgrew the cap: whole, or cut at the cap and marked so |
| OriginDelivery.TablesExactly | internal/http2x/origin_conn.go:218-746 | after every run, exactly which events open and tear down a request stream, which promise, capture or drop a push, and which end the connection |
| OriginDelivery.RunTells | internal/http2x/origin_conn.go:236-280 | a request stream in the table has a closed body exactly when the origin ended it or its reader closed it, a stopped upload exactly when NO_ERROR came behind a complete response, and is gone once upload and response are both done |
| OriginDelivery.SendWindowsTold | internal/http2x/origin_conn.go:218-746 | the send windows of every reachable state are those of its events, for requests and captured promises; so each is the balance of its ledger |
| OriginDelivery.EveryByteIsCharged | internal/http2x/origin_conn.go:632-690 | the bytes charged are the wire lengths of the DATA frames within the connection window, and all that is no longer unread was given back |
| Teardown.ExactlyOnceTeardown | internal/http2x/serve.go:188-236 | in every interleaving of the lock sections no stream is removed twice, open counts the table within the limit, and a stream whose handler returned and whose body ended, with its HEADERS or later, was removed exactly once |
| Teardown.HandlerFinishInv | internal/http2x/serve.go:188-223 | finish and its second look at the closed flag keep the protocol's invariant |
| Framing.WriteHeaderBlock | internal/http2x/serve.go:684-722 | succeeds if and only if the connection takes the frames the block needs; the fragments concatenate to the block, each within 16384 bytes, END_HEADERS on the last only, END_STREAM on HEADERS or nowhere; a failed one leaves a beginning of the block |
| Framing.SendChunk | internal/http2x/serve.go:631-650 | succeeds if and only if the grants cover the chunk and the connection takes its frames; they carry the chunk in order and END_STREAM only on the last; a failure leaves a prefix and ends nothing |
| Framing.SendBody | internal/http2x/serve.go:620-665 | succeeds if and only if the reader reaches its end, the grants cover the body and the connection takes its frames, which then carry exactly the body; a failure leaves a prefix of it |
| Framing.WriteResponse | internal/http2x/serve.go:586-682 | succeeds if and only if header block, body and trailers each fit what grants and connection allow; then they carry exactly one END_STREAM, on the last message part; a failed one never ends the stream in its DATA |
| Framing.WriteRequestBody | internal/http2x/origin_conn.go:330-409 | succeeds if and only if the reader ends, the grants cover the body and the connection takes its frames; END_STREAM is on the last frame, and a failed upload ends nothing |
| Framing.EnoughGrants | internal/http2x/serve.go:620-665 | a body whose reader ends is covered by as many non-zero grants as it has bytes, in at most one frame more than bytes |
| Framing.ReceiverRecovers | internal/http2x/serve.go:586-722 | a receiver rebuilds header block and body from the frames |
| Flows.CapsKeepPrefixes | internal/store/memory.go:163-250 | the caps keep prefixes of bodies, frames and gRPC trees as long as the cap allows, at most 4096 frames that use up the cap before any byte is lost, and flag what they cut |
| Flows.CapTreeKept | internal/store/memory.go:216-235 | the gRPC cap cuts fields and messages from the end, leaves a tree that fits alone, and gets the tree under the cap if and only if it fitted or its two labels do |
| Flows.LabelsCanExceedCap | internal/store/memory.go:216-235 | a tree of which everything is cut and that is still over its cap |
| Flows.TruncateTree | internal/store/memory.go:216-235 | the loop cuts what the recursive cap cuts |
| Flows.CapFlowHonest | internal/store/memory.go:163-250 | after the body caps every captured flow's sizes describe its bodies, exactly what was cut is marked, and headers, trailers and every other field stay |
| Flows.SpillKeepsCostIff | internal/model/flow.go:268-280 | moving a body to disk keeps its resident size if and only if its Size is its length |
| Flows.ClearedFramesCost | internal/model/flow.go:282-296 | clearing frame payloads keeps their resident size |
| Flows.ResidentIsShown | internal/model/flow.go:257-330 | the charge of a flow is the length of what callers see of it, bodies or declared sizes, header texts, payloads and tree, plus 4 a header, 64 a frame and 16 a gRPC message; so never less than the bytes shown |
| Flows.ChargeFollowsParts | internal/model/flow.go:257-330 | replacing a message, the frames or the tree changes the charge by exactly what the part shows more or less, and nothing else is charged |
| InboxLaws.RemoveIndexed | internal/store/memory.go:775-806 | removal keeps order, index and byte counter in step, so the below-zero clamp is dead |
| InboxLaws.MakeRoomIsShortest | internal/store/memory.go:395-403 | the eviction loop removes exactly the shortest prefix of the order that makes room |
| InboxLaws.DryRunAgrees | internal/store/memory.go:366-403 | under evict_oldest the dry run accepts if and only if the candidate is within maxBytes, and then the real loop makes room |
| InboxLaws.InsertInv | internal/store/memory.go:309-333 | insertion keeps both caps, the counter, the epoch law and the sorted order |
| InboxLaws.ReplaceCapsInv | internal/store/memory.go:686-710 | new caps evict the shortest sufficient prefix, cannot fail once started, and hold afterwards |
| InboxLaws.VictimsFreeEnough | internal/store/breakpoint.go:221-240 | the planned victims free the excess, or are all other rows |
| InboxLaws.VictimsAreFewest | internal/store/breakpoint.go:221-240 | without its last victim the plan would not free enough |
| InboxLaws.ApplyPatchInv | internal/store/breakpoint.go:195-291 | a successful patch keeps both caps and never evicts the patched row |
| InboxLaws.ResumeNeverFull | internal/store/breakpoint.go:221-240 | under evict_oldest a patched flow that fits alone is never refused as full |
| InboxRuns.RunInv | internal/store/memory.go:309-435 | over every run, whatever sizes are charged, the order lists the rows once each, bytes is the sum of their charges, caps and epoch law hold, and generation never goes back |
| InboxRuns.RunSorted | internal/store/memory.go:419-435 | on runs without ExpireBreakpoint the order is sorted by the time of completion, or of the start of a flow that has not completed, then by id |
| InboxRuns.StaleInsertIsRefused | internal/store/memory.go:309-311 | whatever comes before and after, an Insert that carries an epoch from before a Wipe or ResetTo changes nothing |
| InboxRuns.ExpireSortedIff | internal/store/breakpoint.go:124-144 | an expiry keeps the order sorted if and only if the row still belongs between its neighbours |
| InboxRuns.UnsortedIsReached | internal/store/breakpoint.go:124-144 | for any two flows that fit together, a run in which the older one pauses and times out behind the newer one's eviction time leaves the order unsorted |
| InboxRuns.StepInv | internal/store/memory.go:551-806 | every operation, refused or not, keeps the invariant |
| InboxEffects.InsertEffect | internal/store/memory.go:309-333 | an insert adds its row, changes no other, and evicts the oldest rows one by one, each counted once, only as long as there is no room |
| InboxEffects.PatchEffect | internal/store/breakpoint.go:195-291 | a patched resume gives the paused side the patch's headers if it has any and the patch's body, with its length and not truncated, if it has one; nothing else of the flow changes but its state; the oldest other rows go, no more than it takes |
| InboxEffects.ReplaceEffect | internal/store/memory.go:686-710 | new caps evict the oldest rows one by one, each counted once, only as long as the caps are not met |
| Spill.SplitRestores | internal/store/spill.go:197-236 | splitting the concatenated blob by honest sizes restores every frame |
| Spill.SplitRestoresIff | internal/store/spill.go:197-236 | the split restores the frames if and only if sizes name the payload lengths, up to an overstated last payload |
| Spill.DishonestFramesDoNotSplit | internal/store/spill.go:61-78 | a concrete list with a wrong size that comes back different |
| Spill.WriteTemps | internal/store/spill.go:24-59 | succeeds if and only if no write of a spilled side fails; temporary files then hold what their side will spill; no live file changes |
| Spill.Commit | internal/store/spill.go:92-123 | renames publish all sides or none, and fail if and only if the rename of a spilled side does |
| InboxStore.DropFromOrder | internal/store/memory.go:781-786 | the scan removes the first occurrence of an id |
| InboxStore.RemoveRecordLinked | internal/store/memory.go:775-806 | removing a record removes its row and its files, and no other row's bodies change |
| InboxMemory.FindPlace | internal/store/memory.go:419-435 | the scan finds the place before the first later row |
| InboxMemory.DryRun | internal/store/memory.go:366-393 | the counting loop decides admission exactly |
| InboxMemory.EvictUntilFits | internal/store/memory.go:395-403 | the loop evicts what the specification evicts and reports whether the candidate fits |
| InboxMemory.EvictUntilUnderCaps | internal/store/memory.go:409-417 | the loop evicts what the new caps require |
| InboxMemory.InsertFlow | internal/store/memory.go:252-360 | the exact outcome: too large, spill failure, stale epoch or full, in that order; a refused insert evicts nothing and leaves every live file; an accepted one adds the row callers see, evicts as few of the oldest as it takes, and spills exactly the sides at least as long as the threshold |
| InboxPatch.PatchFlow | internal/store/breakpoint.go:195-291 | the exact outcome, by verdict and file failures; any error leaves rows, order, bytes, generation and live spill contents unchanged; success applies the patch to what callers see |
| InboxPatch.ChooseVictims | internal/store/breakpoint.go:221-240 | the planning loop finds the victims and what they leave over |
| InboxPatch.Stage | internal/store/breakpoint.go:241-258 | fails if and only if the patch spills and its write or rename fails, and then no live file changes; otherwise the staged file replaces the side's file |
| InboxPatch.PatchLoads | internal/store/breakpoint.go:264-285 | after a patch, above or below the threshold or empty, the loaded flow is the patched loaded flow |
| InboxPatch.ResumeFlow | internal/store/breakpoint.go:57-98 | the exact outcome, refusals changing nothing; after an accepted one the paused side has the patch's headers and body where given and its own otherwise, all else of the flow stays, and the state is open exactly if the request was paused; as few of the oldest other rows as it takes are evicted |
| InboxApi.HonestCharge | internal/store/breakpoint.go:199-218 | in an honest store a patch is charged as in a store that never spills |
| InboxApi.SwapCaps | internal/store/memory.go:686-710 | ReplaceCaps refuses bad caps, refuses before evicting when over and neither evicting nor forced, and otherwise succeeds |
| InboxApi.DeleteRows | internal/store/memory.go:571-584 | DeleteAll removes every row and file without a new epoch |
| InboxApi.Reset | internal/store/memory.go:714-770 | Wipe and ResetTo leave no row and no spill file, under a new epoch |
| InboxApi.Do | internal/store/memory.go:252-806 | a call is lost if and only if it reaches a file operation that fails, and then changes nothing callers see; otherwise it acts on what they see as on a store that never spills |
| InboxApi.RunCalls | internal/store/spill.go:24-236 | after any run of calls, callers see what a store that never spills shows after the same calls minus the lost ones, and all of them if no file operation can fail; the bodies, frame payloads and header texts they see, in memory or on disk, sum to at most maxBytes, over at most maxFlows rows |
| InboxApi.FaultlessRun | internal/store/spill.go:24-236 | a run in which no file operation fails ends alike under all spill options |
| InboxApi.StepPriced | internal/store/memory.go:252-360 | every call keeps each row charged with the resident size of the flow callers see |
| InboxApi.PricedBytes | internal/model/flow.go:257-266 | the byte counter is then the sum of the resident sizes along the order |
| InboxApi.CallTold | internal/store/memory.go:252-806 | every call that is not lost does what its callers are told, field by field and row by row: what a pause, resume, drop, expiry, delete, wipe, reset, new caps or insert changes, what it leaves and what it counts |
| InboxApi.Memory.Call | internal/store/memory.go:252-806 | one lock section of the object: the step of Do, told by its effects, with both caps kept in the bytes callers see |
| InboxReads.Get | internal/store/memory.go:438-459 | exactly when Get answers with a flow, not found or a spill error; it answers with the flow callers were promised if and only if every file it opens is readable and gives what it gave under the lock, and so always when nothing comes in between |
| InboxReads.QuietGet | internal/store/memory.go:438-459 | a valid store has every file Get opens |
| InboxReads.GetAroundResume | internal/store/memory.go:438-459 | Get with a whole Resume between its two halves, for any store, row, phase and patch: the old row around the new body if a spilled body was replaced by a spilled one, a spill error for a standing row if by one that is not spilled, and the row it saw in every other case |
| InboxReads.TornGet | internal/store/spill.go:197-205 | the run from a new store that shows both: a request is spilled on Insert, and Get of it meets the Resume |
| Breakpoints.RunInv | internal/store/breakpoint.go:23-193 | in every interleaving waiters are listed only for paused, unresolved rows, and no non-blocking send is dropped |
| Breakpoints.EveryWaiterIsTold | internal/store/breakpoint.go:146-193 | a call that has not returned is listed exactly while its pause lasts, and afterwards its channel holds exactly how the pause ended |
| Breakpoints.RegisterAnswers | internal/store/breakpoint.go:146-172 | after any run, WaitPaused answers at once that the row is gone, how its last pause ended, or that it was never paused, and waits exactly if it is paused |
| Breakpoints.ToldOnce | internal/store/breakpoint.go:324-348 | however a run goes on, a channel's content, a returned result, the pause a call waited for and a pause's outcome never change again |
| Breakpoints.WaitersAgree | internal/store/breakpoint.go:324-336 | all calls of one pause are told the same |
| Breakpoints.CancelReportsOwnEndIff | internal/store/breakpoint.go:174-192 | a cancelled call gets its context's error if and only if its pause has not ended, and its own pause's end unless a later pause of the row ended differently |
| Breakpoints.ReturnsOwnEnd | internal/store/breakpoint.go:146-193 | a call whose row ended no later pause returns its own pause's end or its context's error |
| Breakpoints.CancelCanReportLaterPause | internal/store/breakpoint.go:178-182 | a run in which a call of a resumed pause is told it was dropped |
| Breakpoints.Deliver | internal/store/breakpoint.go:324-336 | the send loop tells every waiter without mail, and reports any send that found a full channel |
| Breakpoints.FailPaused | internal/store/breakpoint.go:338-348 | every waiter of every list is told, whatever the map order, and the loop reports exactly whether some send found a full channel |
| Breakpoints.RemoveWaiter | internal/store/breakpoint.go:350-361 | the scan removes one waiter |
| InboxWaiters.CallAgrees | internal/store/memory.go:551-806 | every call of the inbox, with its evictions, takes the waiter steps that leave both sides with the same rows and the same ones paused |
| InboxWaiters.NobodyWaitsInVain | internal/store/breakpoint.go:146-193 | in every interleaving of inbox calls and WaitPaused calls, waiters are listed only for rows paused in the inbox, and a call whose row is not, whether it was resumed, dropped, expired, deleted, evicted or wiped, finds in its channel how its pause ended |
| InboxWaiters.CallsTellWhy | internal/store/breakpoint.go:57-144 | in every interleaving, a waiting call whose row a call of the inbox takes out of its pause finds in its channel the resume's reply, the drop, the expiry, the new epoch, or that the row was deleted or evicted |
| Paging.List | internal/store/memory.go:462-517 | the page is the next rows of the whole filtered listing and carries a cursor exactly when more follow; rows whose file vanished are left out of it without moving the cursor, and an unreadable file fails the call |
| Paging.CursorContinues | internal/store/memory.go:525-548 | the page named by a cursor starts right behind the last row of the page before |
| Paging.GoneCursorResumes | internal/store/memory.go:476-548 | while the order is sorted, a cursor whose row is gone resumes exactly behind the rows past its time and id |
| Paging.Enumerate | internal/store/memory.go:462-548 | following cursors from the start ends, and lists every matching row whose file did not vanish once, newest first |
| Paging.NewestExactly | internal/store/memory.go:476-502 | the listing holds exactly the matching rows without repetition |
| Recency.PutOk | internal/app/idempotency.go:108-125 | recording keeps the bound and one entry per key, with the new entry first |
| Recency.PutKeeps | internal/app/idempotency.go:58-84 | nothing falls off while there is room or the key is present |
| Recency.PutEvictsOldest | internal/app/idempotency.go:122-124 | a new key on a full list costs exactly the last entry |
| Recency.TouchedMovesFront | internal/app/idempotency.go:127-141 | a lookup that hits moves its entry to the front and keeps the order of the rest; any other changes nothing |
| Idempotency.IdempCache.constructor | internal/app/idempotency.go:31-39 | an empty cache with the default bound of 256 for non-positive sizes |
| Idempotency.IdempCache.Unlink | internal/app/idempotency.go:151-164 | relinks both neighbours and both ends so that the chain is the old one without the node |
| Idempotency.IdempCache.PushFront | internal/app/idempotency.go:112-121 | the chain is the node followed by the old chain |
| Idempotency.IdempCache.MoveFront | internal/app/idempotency.go:127-141 | the chain is the node followed by the rest in order |
| Idempotency.IdempCache.RemoveEntry | internal/app/idempotency.go:143-149 | the node leaves chain and map |
| Idempotency.IdempCache.InsertFront | internal/app/idempotency.go:108-125 | replaces the key's node and trims the tail to the bound |
| Idempotency.IdempCache.Lookup | internal/app/idempotency.go:41-56 | finds the entry of the key for the same request and makes it most recent; reports a key reused for another |
| Idempotency.IdempCache.StorePlan | internal/app/idempotency.go:58-70 | refines recording a plan on the recency list |
| Idempotency.IdempCache.StoreApply | internal/app/idempotency.go:72-84 | refines recording a commit on the recency list |
| Idempotency.IdempCache.Evict | internal/app/idempotency.go:86-95 | refines dropping a key |
| Idempotency.IdempCache.Clear | internal/app/idempotency.go:97-106 | leaves an empty valid cache |
| Idempotency.ContentsOk | internal/app/idempotency.go:22-29 | chain and map always spell out a list with one entry per key within the bound |
| Changes.RunInv | internal/app/mutate.go:35-122 | over every run a recorded result is that of its key's last commit for the same request, and commits form one chain of snapshots |
| Changes.Answers | internal/app/mutate.go:35-122 | Plan and Apply refuse a key used for another request, return what was recorded for the same one, and otherwise name the first thing wrong, in order, or go through |
| Changes.ReplayIsRecorded | internal/app/mutate.go:80-85 | a repeated request still cached returns the recorded result and swaps nothing |
| Changes.ReuseChangesNothing | internal/app/mutate.go:40-41 | after any run, a key whose recorded commit was made for another request is refused by Plan and Apply, and the run ends as if the call had not been made |
| Changes.CommitsIff | internal/app/mutate.go:86-122 | after any run, an Apply adds a commit if and only if it is no replay, reuses no key, builds and fits, and names the revision the last commit left; the generation is then one above the commits so far, and the result names both revisions and the operations |
| Changes.RunGenerations | internal/app/mutate.go:180-216 | the generation counts the commits, each replaced the revision it named, and its plan names that revision, the one it made and the operations it was asked for |
| Changes.PlanSwapsNothing | internal/app/mutate.go:35-73 | a Plan swaps nothing, and one that goes through under a key is recorded first, naming both revisions and its operations |
| Changes.AtMostOncePerKey | internal/app/mutate.go:75-122 | with no more keys than the cache holds and no forgetting Plan, every key commits at most once |
| Changes.AppliesOnce | internal/app/mutate.go:75-122 | in runs of Apply alone with no more keys than the cache holds, no key commits twice |
| Changes.PlanLosesRecordIff | internal/app/mutate.go:40-48 | a Plan loses its key's recorded commit if and only if it holds no plan and the named revision is stale |
| Changes.MixedRunCommitsTwice | internal/app/mutate.go:35-56 | apply, stale plan, apply again: one key and one request commit twice |
| Server.AppServer.Apply | internal/app/mutate.go:75-122 | the critical section on the heap cache is the model's Apply |
| Server.AppServer.Plan | internal/app/mutate.go:35-56 | the critical section on the heap cache is the model's Plan |
| Server.Serve | internal/app/mutate.go:25-73 | a whole run on the object is the run of the model |
| Bytes.XorTwice | internal/wsx/frame.go:322-326 | exclusive or with one key byte twice restores the byte |
| Bytes.XorIsBitwise | internal/wsx/frame.go:322-326 | each bit of an exclusive or is set exactly when the two bits differ |
| Bytes.BigEndianConcat | internal/wsx/frame.go:120-150 | in network byte order each byte weighs 256 times the one behind it |
| WsCodec.ReadThenWrite | internal/wsx/frame.go:93-196 | for every header that is accepted, writing it emits exactly the bytes consumed |
| WsCodec.WriteThenRead | internal/wsx/frame.go:93-196 | what is read back from any written header, whatever follows it, including the lengths that are refused |
| WsCodec.RoundTripIff | internal/wsx/frame.go:93-196 | a written header is read back as itself if and only if its length fits 63 bits, its opcode four, and an unmasked one has no key |
| WsCodec.WrittenLayout | internal/wsx/frame.go:151-196 | flags, opcode, mask bit, length and key stand where section 5.2 of RFC 6455 puts them; exactly fragmented or oversized control frames are not written |
| WsCodec.ReadAnswers | internal/wsx/frame.go:93-150 | exactly which bytes are a protocol error and which are too few |
| WsCodec.MaskInPlace | internal/wsx/frame.go:322-326 | the in-place loop masks every byte with its key byte |
| WsCodec.TeePayload | internal/wsx/frame.go:200-237 | succeeds if and only if the source holds the payload and the destination takes its chunks; wire bytes pass unchanged, a failing write leaves a prefix, part of its chunk included, and what is kept is the prefix of unmasking the whole payload |
| WsCodec.FrameTransparent | internal/wsx/frame.go:242-303 | a frame that was read is written as exactly its bytes |
| WsCodec.FrameRoundTrip | internal/wsx/frame.go:242-320 | a normal frame that was written is read back as itself |
| WsRelay.AppendAllOk | internal/proxy/ws.go:309-356 | whatever both pumps append, captured bytes stay within max, at most 4096 frames are kept, and nothing follows the first cut |
| WsRelay.PathsCaptureAlike | internal/proxy/ws.go:227-253 | fast and rules path append the same payload and truncation flag whatever the other pump did meanwhile |
| WsRelay.PrefixSuffices | internal/proxy/ws.go:283-297 | keeping only what was free earlier captures the frame like the whole payload would |
| WsRelay.CloseCodesAgreeIff | internal/proxy/ws.go:371-375 | the close codes agree unless a code other than 0 met fewer than two free bytes |
| WsRelay.CloseCodesCanDiffer | internal/proxy/ws.go:371-375 | a capture with one free byte on which a close frame is recorded with code 1000 or 0, depending on the path |
| WsRelay.CopyPayload | internal/proxy/ws.go:234-248 | the copy succeeds if and only if the source holds the payload and the destination takes header and payload; then the output is both, and what is stored is what the path had of the payload; otherwise the output is a beginning of them |
| WsRelay.PumpFast | internal/proxy/ws.go:150-169 | exactly what is sent, captured and reported for one frame without rules, failing writes included; a close frame of length one is sent and not captured |
| WsRelay.PumpRules | internal/proxy/ws.go:171-206 | exactly what is sent, captured and reported for one frame under rules; by the first rule that matches: a drop sends nothing, is recorded as one and goes on, a block sends nothing, is recorded as one and ends the pump, anything else is forwarded whole if the write succeeds |
| WsRelay.Carry | internal/proxy/ws.go:208-253 | a frame is forwarded or consumed whole, and captured under its action |
| WsRelay.PumpFrame | internal/proxy/ws.go:138-146 | one round of the pump on either path: what is sent and appended, whether it goes on, and whether it reports a protocol error |
| WsRelay.PathsSendAlikeIff | internal/proxy/ws.go:150-206 | a complete frame no rule hits is sent on both paths or on neither if and only if it is no close frame of length one |
| WsRelay.HalfCodeCloseDiffers | internal/proxy/ws.go:150-175 | the three bytes of such a frame: sent whole on the fast path, not at all under rules, a protocol error on both |
| WsRelay.Pump | internal/proxy/ws.go:102-148 | over a whole source the destination receives the wire bytes of the passing frames in order, then at most part of one that the source broke off or a write failed on; the capture holds exactly this pump's records among the other's; it stops at a frame or failed write that ends it or at the other pump's protocol error, and reports one exactly when its own frames do |
| WsRelay.RulesDecideOutput | internal/proxy/ws.go:171-206 | over a whole source the destination gets a beginning of the frames no dropping or blocking rule hits, and nothing of a blocked frame or behind it |
| WsRelay.DropRulesFilter | internal/proxy/ws.go:171-206 | under rules that never block, on a source of complete frames that nothing ends, the output is the source without exactly the frames a dropping rule hits |
| WsRelay.CapturedOk | internal/proxy/ws.go:309-356 | whatever the other pump does meanwhile, the capture a pump leaves keeps its caps |
| WsRelay.FastPathIsTransparent | internal/proxy/ws.go:150-169 | without websocket rules the destination holds a prefix of the source, and all of it when frames are complete, none closes, every write succeeds and the other pump reports no error |
| WsRelay.FramesJoin | internal/proxy/ws.go:128-147 | cutting a source into frames loses no byte |
| Rules.LazyIsEager | internal/rules/engine.go:80-137 | loading payloads only when asked for never changes the hit |
| Rules.ValidatedLazyIsEager | internal/rules/engine.go:80-137 | for validated rules the hit never depends on when payloads are loaded |
| Rules.UnphasedRuleDiffers | internal/rules/engine.go:89-91 | a rule without a phase, which validation rejects, is judged differently |
| Rules.FastPathMissesNothing | internal/rules/engine.go:102-112 | when no enabled rule is a websocket rule, validated rules match no frame |
| Rules.FirstMatch | internal/rules/engine.go:80-100 | the hit is the first rule in the list that is enabled, of the phase, fits and finds its payload text, and there is none exactly if none does or the engine is off |
| Varint.ReadVarint | internal/grpcx/decode.go:303-316 | the loop reads the base-128 number, within ten bytes and 64 bits |
| Varint.RoundTrip | internal/grpcx/decode.go:303-316 | every 64-bit number is read back from its encoding |
| Varint.ReadsFit | internal/grpcx/decode.go:303-316 | whatever is read fits 64 bits in at most ten bytes |
| Varint.ReadExactly | internal/grpcx/decode.go:303-316 | a number is read exactly when one of the first ten bytes ends it within 64 bits, and it is the base-128 value of the bytes up to there |
| Grpc.WalkMessage | internal/grpcx/decode.go:230-301 | the loop finds the fields of the recursive walk, and terminates |
| Grpc.FieldExactly | internal/grpcx/decode.go:230-301 | exactly which bytes are a field, and the number, value or bytes it holds, by wire type |
| Grpc.LittleEndianSnoc | internal/grpcx/decode.go:251-292 | in a fixed-width field each byte weighs 256 times the one before it |
| Grpc.TreeIsLinear | internal/grpcx/decode.go:230-301 | depth at most 8, twice the nodes at most the payload length, cost at most eight times it |
| Grpc.BodyIsLinear | internal/model/flow.go:303-334 | all messages of a body cost at most eight times the body |
| Grpc.ParseFrames | internal/grpcx/decode.go:188-225 | the loop parses what the recursive parser parses |
| Grpc.ParseConcat | internal/grpcx/decode.go:188-225 | a body behind a clean body parses as if it stood alone |
| Grpc.CompressedFrameIff | internal/grpcx/decode.go:338-349 | a compressed frame comes back as one message of its length if and only if that fits 32 bits |
| Grpc.StreamParses | internal/grpcx/decode.go:188-225 | concatenated compressed frames parse as one message each |
| Grpc.CutIsTruncated | internal/grpcx/decode.go:194-206 | a cut inside a frame reports truncation and keeps every frame before it |
| ProtoTrees.TreeRoundTrip | internal/grpcx/decode.go:230-301 | walking an encoded tree finds the tree |
| Limit.PacingIsExact | internal/rules/limit.go:60-87 | however bytes are chunked, the pauses total floor(N * 1e9 / bps) |
| Limit.ChunkingIsIrrelevant | internal/rules/limit.go:60-87 | two chunkings of the same bytes wait equally long |
| Limit.LimitedReader.Read | internal/rules/limit.go:60-87 | keeps 0 <= rem < bps and the exact total, asks for at most a second, fits int64, and is never shortened by the delay clamp |
| Limit.LimitedReader.constructor | internal/rules/limit.go:14-31 | the clamped rate and its quantum |
| Limit.ClampBytesPerSecond | internal/rules/action.go:36-46 | zero below the minimum, the maximum above it, the rate itself between them |

## Left out

- Sockets, deadlines, TLS and HPACK: frames are parsed values, header blocks opaque bytes, time-outs free choices.
- The x/net framer's own checks, and the ping, GOAWAY and priority frames, which touch no window or table.
- Raw tunnels over HTTP/2 (serveTunnel): plumbing without a law of its own.
- The capture's own truncation flag in truncateWebSocket: a flow's flag does not inherit the capture's. A gRPC tree in the inbox is the sizes of its fields; their contents are in `Grpc`.
- Removal of spill files by the operating system failing: unlink is taken to succeed.
- InboxRuns.RunInv: holds for arbitrary charges; that every charge is the resident size of the row is InboxApi.StepPriced and InboxApi.RunCalls.
- InboxApi.Memory: the fields of the store are one value reassigned under the lock. Insert's first lock section only reads the caps, which its second one takes as an arbitrary parameter, so other calls may run between the two; its temporary files are written in the same step.
- Breakpoints.RunInv: rows carry only their pause state, and which operation ends a pause is a free step; InboxWaiters says which steps each call of the inbox takes.
- The contents of a resume reply: snapshotPatch and currentPatch are one opaque value.
- Paging.List: enumeration is proved for cursors of stored rows; where one of a deleted row resumes is Paging.GoneCursorResumes, its time being read from the id and so approximate in the source.
- What closeBoth does to the other pump's reads is that pump's own source ending.
- matchANDExceptPayload: any payload-independent condition stands for host, path, method, header, opcode and direction matching.
- isPrintableUTF8 and Classify: an arbitrary predicate, and not modelled.
- Changes.AtMostOncePerKey: Reset, which clears the cache, is not one of the calls; the request digest is taken to be injective; Validate never swaps and is not modelled.
- The error of a call without an active snapshot, and audit, metrics and event fan-out, which no state law depends on.
- REST, MCP, web UI, CLI, configuration decoding and validation, certificates, authentication: claims that settle branch by branch.
