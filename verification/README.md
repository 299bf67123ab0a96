# Verified model of the iSCP v2 client's protocol engines

This project models the parts of the Rust iSCP v2 client that hold protocol state, and proves what
they keep over every run. Asynchronous code is modelled as atomic steps: tasks, channels, timers and the
server are the environment, and every theorem about a run quantifies over all sequences of its events.

| file | models |
|---|---|
| `Base.dfy`, `Types.dfy`, `Messages.dfy` | fixed-width counters, results, the message fields the engines look at |
| `Datagram.dfy`, `Reassembly.dfy` | cutting messages into datagram frames, and rebuilding them over a channel that reorders, interleaves, delays and loses |
| `Completeness.dfy`, `LongRuns.dfy`, `RepeatedFrames.dfy` | when a message comes out; message numbers that come round again; frames that arrive more than once |
| `DownOrder.dfy`, `ReorderRuns.dfy`, `StrictOrder.dfy`, `BestEffortOrder.dfy`, `BestEffortRuns.dfy` | the downstream reorderer and what its two modes deliver |
| `StableSort.dfy`, `UpstreamChunks.dfy`, `Upstream.dfy`, `UpstreamLoop.dfy`, `UpstreamEvents.dfy` | the upstream's buffer, chunks, storage and flusher, the loop around them, and what each event brings about |
| `Dictionary.dfy`, `Session.dfy`, `LossySession.dfy` | the sliding dictionary, a compressed session between two endpoints, and the same over a channel that loses frames |
| `DownState.dfy`, `Conversion.dfy`, `Downstream.dfy`, `Receiving.dfy` | chunk conversion, upstream aliases and acks, the read loop that joins them to the reorderer, and what becomes of the chunks received |
| `Resume.dfy`, `ResumeRounds.dfy` | how upstreams and downstreams get back onto a connection |
| `ReadLoop.dfy`, `Requests.dfy` | routing of received messages; request ids, the table of requesters and the two read loops sharing it |

Objects the client updates in place are classes. Their methods are proved equal to functions on values
(`PushStep`, `PopStep`, `Drained`, `AddInfo`, `TakeTurn`, ...); runs iterate those functions, and the main
results are about the runs.

## Main results

* **Fragmentation** (`FramesCarryTheMessage`, `ChannelIsSafe`, `CompletesIff`, `PacedSenderIsSafe`). Whatever is
  lost, delayed or overtaken, the receiver returns only messages that were sent, each at most once; if all frames of a
  message come, the last of them returns it if and only if no check for old entries came too late after the first. Up to 2^32 messages that needs no assumption on time; beyond that
  it is enough that a turn of the 2^32 numbers takes longer than the channel's delay and twice the expiry.
* **Reordering** (`StrictDeliversInOrder`, `StrictNeverFailsIffBoundedDelay`, `BestEffortDelivers`, `ReorderingConserves`).
  Strict mode delivers first, first + 1, ... up to the first missing number, and refuses nothing if and
  only if the delay is bounded by the limit. Best effort waits for the number after the last one
  delivered until its store is full, and then goes on from the least number it has. Neither loses a chunk other than by a
  duplicate number.
* **Reliable upstream** (`ReliableUpstream`, `UpstreamAccounting`, `ChunkMeansBuffer`, `ChunkConservesPoints`). The storage
  is exactly what was issued and not acked; a live connection has been given all of it; every point
  written is in an issued chunk or buffered; chunks mean what was written.
* **Compressed sessions** (`SessionRoundTrip`, `SessionGoesOn`, `DictionaryIsSlidingWindow`). The receiver sees a prefix of what was written
  and both dictionaries stay in step.
* **Downstream** (`AckConservation`, `AliasTable`, `ConvertsIff`, `ChunksAreTakenUpIff`, `SeenWasReceived`, `ApplicationSeesAllIff`). Every
  chunk that can be converted is taken up, with its number, points and upstream, and acknowledged; nothing else is. The application sees a subsequence of what the reorderer delivers, and all of it if and only if
  no chunk found its channel full or closed; aliases are one-to-one, stable, and announced once.
* **Resume** (`AttachSafety`, `AttachesIff`, `TokenDiscipline`). A stream registers only where it was opened or resumed, with the latest
  alias, and a round gets it there if and only if it comes to a turn in which the connection is up and no resume is needed.
* **Requests** (`OneMessageEach`, `NobodyIsLost`, `ResponseArrives`). A requester gets at most one message, with its own id, and
  a response read in time is what it concludes from, whatever else happens: success if and only if the response is of its kind
  and says so. A message reaches a stream's channel if and only if the latest command for its alias registered that (`ReachesIff`).

## Where a natural expectation fails

The model keeps the code as it is. For each of these a lemma gives a failing run or input, and another
says when it does not fail, for nearly all exactly.

* The token that a successful resume returns is not used in the same round: `StaleTokenIsSent` gives a run whose second
  resume request carries the old token, `LatestTokenIsSentIff` says when a request carries the latest one.
* The downstream's close procedure should wait until its last ack has been completed. Up to 2^32 acks it does, unless
  there is just one, because the counter of completions starts at 0 (`CloseWaitIsForTheLastAck`, `FirstAckIsNotAwaited`). Beyond that
  the completion of an older ack can end the wait (`OldCompletionEndsTheWait`, `AnyNumberOfAcks`); `CloseWaitInRuns` has the condition
  for every run.
* The upstream's close procedure should wait until everything has been acked. It waits for the ack of the last chunk only:
  `LaterAckEndsTheWait` is a run that closes with chunk 1 unacked. At the end of the wait everything has been acked if and only
  if the acks so far leave no gap (`WaitOverMeansAllAckedIff`); as long as they leave none, the wait ends exactly when
  everything has been acked (`GaplessAcksEndTheWaitIff`).
* What the downstream delivers and acknowledges should reach an application that listens. The drain after the loop has left a
  connection only tries to hand chunks over: `FullChannelLeavesAGap` is a strict run in which a full channel leaves the
  application with a gap that has been acknowledged, `MissedIsGone` says that nothing fills such a gap, and
  `ApplicationSeesAllIff` has the exact condition.
* A chunk should go out under its stream's alias. One that is resent keeps the alias it was issued under: `ResendKeepsTheOldAlias`
  is a run in which that is an old one. After a resume has given the stream an alias it has not had before, a chunk carries that
  alias if and only if it was issued since (`CarriesCurrentAliasIff`).
* An empty message is sent as one frame, which the receiver discards: `EmptyMessageIsDropped`.
* A frame that arrives twice counts twice. One half of a two-frame message pushed twice passes for the message, which
  is wrong exactly if the halves differ (`RepeatedFrameCorrupts`); a single-frame message comes out twice
  (`RepeatedSingleFrameRepeats`). As many frames as a message has join to it exactly if in order of index they carry its
  segments (`JoinsIffSegmentsMatch`), which for different segments means that none is repeated (`JoinsIffDistinct`).
  Without expiry every push for a number that completes a round of as many frames as its message has returns something, and
  no other push does (`EveryRoundIsReturned`).
* A message number that is used again while an entry is left under it makes one message of parts of two (`EarlyReuseMixes`); that
  is neither of the two unless they have a part in common. The sender's counter does not guard against it; `LateReuseIsSafe`
  and `PacedSenderIsSafe` say when it cannot happen.
* In strict mode a duplicate of a delivered chunk stays in the store (`StaleDuplicateStays`) and takes up room:
  `DuplicateCausesRefusal` is a run that is refused a chunk only because of one, `StrictAcceptsExactly` the condition.
* After 2^31 draws a request id comes round again: `RequesterIsPushedOut` is a run in which a waiting requester loses its
  place, `InsertOverwritesIff` the condition.
* The client means to close an upstream before its chunk numbers wrap, but looks for the number 2^32 - 1 only after a live
  flush. `WrappingEscapesTheGuard`: numbers wrap only if the chunk with that number was not sent by a live flush, or the
  stream was closed for it and what was written meanwhile went into a last chunk. Each happens: `WaitingFlushesWrap`, `LiveFlushWraps`,
  `RemainingDataWraps`. Once a live flush has sent that number, numbers wrap if and only if there is such a last chunk
  (`GuardedNumbersWrapIff`). The original adds 1 to the old counter value, which panics in builds with overflow checks
  instead of wrapping.
* Context takeover is also used on the unreliable channel, where frames get lost. One lost frame can make the reader fail
  on the next, whatever the window size (`LostFrameBreaksLockstep`; the lossless codec of that run, `Marking`, is made up for
  the purpose and is not DEFLATE). Without context takeover every frame that arrives is restored (`EveryArrivalIsRestored`): every
  lossless codec restores all arrivals in all runs if and only if the mode is not context takeover (`RestoresArrivalsIff`).
* The documentation of `reordering_chunks` calls it the greatest number of chunks that wait (src/iscp/downstream.rs:47).
  Strict mode keeps to that (`StrictHoldsAtMostLimit`). Best effort lets fewer than max(1, limit) wait (`BestEffortDrain`):
  `BestEffortLetsNoneWait` is a run with the limit 1 in which no chunk waits although strict mode would keep one.

## Assumptions

* Foreign code: a message decoder restores what the encoder made, and inflating with the same dictionary restores what
  was deflated (RFC 1951), which is never empty (`Session.Lossless`). A standard library sort by key is stable where the
  original asks for it; `SortIsDetermined` shows that nothing more need be said of it.
* The datagram channel invents no frames and, outside `RepeatedFrames`, gives none twice; the reliable connection of `Session`
  delivers in order and loses nothing. The server acks only numbers that were issued.
* Clock readings do not decrease (`Timely`, `ClockRuns`); nothing else is assumed of time.

## Model

| member | source | states |
|---|---|---|
| Datagram.HeaderRoundTrip | src/transport/datagram.rs:50-53 | the big-endian fields the receiver reads back from a frame are the number, last index, index and payload the sender put in |
| Datagram.SegmentsCarryTheData | src/transport/datagram.rs:44-53 | segments concatenate to the data, none exceeds the segment size, and none is empty unless the data is |
| Datagram.SlicesAreSegments | src/transport/datagram.rs:35-49 | the division of the length counts the segments, and slicing by index cuts out exactly those |
| Datagram.AcceptedIsNumberable | src/transport/datagram.rs:27-42 | every accepted length gives max(1, ceil(len / size)) segments, a number whose indices fit the u16 fields |
| Datagram.NumberableIff | src/transport/datagram.rs:17-28 | the segments of a message can be numbered exactly up to the length size * 65535, and the splitter accepts all those messages but the longest |
| Datagram.FramesCarryTheMessage | src/transport/datagram.rs:44-56 | frames fit the datagram size, carry number, last and own index, concatenate to the message, and are at least 9 bytes unless it is empty |
| Datagram.LastIndex | src/transport/datagram.rs:35-41 | the computed last index is one less than the number of segments |
| Datagram.CutSegment | src/transport/datagram.rs:45-49 | the slice taken for an index is that segment |
| Datagram.Splitter.constructor | src/transport/datagram.rs:17-24 | the counter starts at 0 and segments leave room for the header |
| Datagram.Splitter.Split | src/transport/datagram.rs:26-59 | accepts exactly messages below the limit, appends exactly the message's frames and bumps the counter; a rejected message changes nothing |
| Reassembly.SortIsDetermined | src/transport/datagram.rs:116 | any rearrangement sorted by index is the same one when no index repeats, so the unstable sort is immaterial |
| Reassembly.JoinFrames | src/transport/datagram.rs:113-123 | the payloads are joined in order of index |
| Reassembly.JoinRestoresMessage | src/transport/datagram.rs:113-123 | as many different frames of a message as it has, in any order, join to the message |
| Reassembly.FrameBuf.Push | src/transport/datagram.rs:77-110 | output and new table of a push, with sweep, single-frame, completing, growing and opening case |
| Reassembly.PushKeepsSound | src/transport/datagram.rs:77-110 | a frame not pushed before keeps every entry a strict part of one sent message; an output is a sent message all of whose frames have come |
| Reassembly.ReassemblySafety | src/transport/datagram.rs:62-123 | for any order, interleaving, loss and expiry every output is one sent message, and no message is output twice |
| Reassembly.CompletedIsClosed | src/transport/datagram.rs:95-101 | after a message has been output no frame of it can come any more |
| Completeness.CompletesIff | src/transport/datagram.rs:77-123 | if the frames of a message all come, once each, among any others, the last push returns it if and only if no check due since the first came more than the expiry after that; the others return nothing. Nothing is assumed of the clock |
| Completeness.ReassemblyCompleteness | src/transport/datagram.rs:77-123 | in particular the last of frames that all come within the expiry of the first gives the message and leaves no entry |
| Completeness.PushDropsExactly | src/transport/datagram.rs:82-86 | a push within the expiry of the last check leaves all other entries alone; a later one drops exactly those older than the expiry |
| Completeness.PushOwnExactly | src/transport/datagram.rs:88-110 | a push for a number with an entry that is not too old adds its frame and gives the joined frames exactly when they are as many as the first announced; without one it opens an entry; a single frame is returned at once |
| Completeness.RunChecks | src/transport/datagram.rs:82-86 | the time of the last check in a run is that of the last push at which one was due |
| Reassembly.EmptyMessageIsDropped | src/transport/datagram.rs:78-80 | the single frame of an empty message is discarded |
| RepeatedFrames.RepeatedFrameCorrupts | src/transport/datagram.rs:95-101 | either frame of a two-frame message pushed twice comes out as its payload twice, which is the message exactly if the halves are equal |
| RepeatedFrames.RepeatedSingleFrameRepeats | src/transport/datagram.rs:91-93 | the frame of a one-frame message pushed twice gives the message twice |
| RepeatedFrames.JoinsIffSegmentsMatch | src/transport/datagram.rs:95-123 | as many frames of a message as it has, with repetitions, join to it if and only if in order of index they carry its segments |
| RepeatedFrames.JoinsIffDistinct | src/transport/datagram.rs:95-123 | for pairwise different segments: if and only if no frame is repeated |
| RepeatedFrames.EveryRoundIsReturned | src/transport/datagram.rs:77-110 | as long as nothing expires, a push for a number returns something if and only if it is the last of a round of as many frames as the message has, whatever frames come, so a second time at push 2 * needed |
| Reassembly.EntriesAreYoung | src/transport/datagram.rs:82-86 | no push works with an entry older than twice the expiry, although the sweep runs at most once per period |
| Reassembly.NumberedKeys | src/transport/datagram.rs:30-31 | up to 2^32 messages from any counter value get different numbers, and each number leads back to its message |
| Reassembly.QueueIsSound | src/transport/datagram.rs:26-59 | what a splitter queues for up to 2^32 non-empty messages meets the assumptions of reassembly safety |
| Reassembly.ChannelIsSafe | src/transport/datagram.rs:26-123 | from splitter to application: of up to 2^32 non-empty messages, whatever order and selection of the frames queued arrives, only messages split come out, each at most once |
| LongRuns.LateReuseIsSafe | src/transport/datagram.rs:77-123 | for any number of messages, if a number is used again only more than twice the expiry after the last frame of its former message, every output is the message its frame belongs to, and no message comes out twice |
| LongRuns.PacedSenderIsSafe | src/transport/datagram.rs:26-123 | that is so if frames arrive within a delay or never and the sender takes longer than this delay and twice the expiry for 2^32 messages |
| LongRuns.EarlyReuseMixes | src/transport/datagram.rs:77-101 | the failing case: the first frame of one message and, in time, the second of another with its number come out as a mixture, which is one of the two exactly if the other parts are equal |
| DownOrder.DownReorderer.constructor | src/iscp/down_order.rs:22-33 | reordering is on exactly for reliable streams that ask for it; no upstream is known |
| DownOrder.DownReorderer.Iter | src/iscp/down_order.rs:35-58 | a chunk is stored, passed through, or refused with nothing changed; no other upstream is touched |
| DownOrder.DownReorderer.Pop | src/iscp/down_order.rs:60-81 | releases the least stored chunk when best effort is full, `next` when stored, nothing otherwise |
| DownOrder.DownReorderer.DrainIter | src/iscp/downstream.rs:335-340 | the application gets the specified sequence and the lane is left as specified; if it closes its end after `room` chunks it got those, one more is lost and the rest can still be drained |
| DownOrder.DownReorderer.DrainAll | src/iscp/downstream.rs:378-380 | the final drain's iterator gives the specified sequence and leaves the lane as specified, whatever becomes of the chunks |
| ReorderRuns.UpstreamsAreIndependent | src/iscp/down_order.rs:35-81 | in any interleaving each upstream behaves as if its chunks were the only ones |
| ReorderRuns.DrainKeepsOwned | src/iscp/down_order.rs:60-81 | a drain yields only chunks of its upstream, and the store stays filed by number |
| StrictOrder.ReleaseKeepsConsistent | src/iscp/down_order.rs:75-77 | releasing `next` keeps accepted = delivered in order + stored |
| StrictOrder.StrictDeliversInOrder | src/iscp/down_order.rs:35-81 | below 2^32 accepted chunks, deliveries of an upstream have numbers first, first + 1, ..., modulo 2^32, once each, up to the least number not accepted |
| StrictOrder.NextIsMissing | src/iscp/down_order.rs:75-80 | the number after those delivered is exactly the first not accepted |
| StrictOrder.StrictAcceptsIffBoundedDelay | src/iscp/down_order.rs:43-48 | fewer than 2^32 chunks with distinct numbers are all accepted if and only if the delay is bounded by the limit |
| StrictOrder.AcceptedIffEarly | src/iscp/down_order.rs:43-48 | one more chunk is accepted if and only if it keeps the delay bounded |
| StrictOrder.StrictNeverFailsIffBoundedDelay | src/iscp/down_order.rs:35-81 | the same for one upstream in any interleaving |
| StrictOrder.StrictSortsWithoutLoss | src/iscp/down_order.rs:35-81 | consecutive numbers with bounded delay all come out, in order of number |
| StrictOrder.StrictHoldsAtMostLimit | src/iscp/down_order.rs:43-48 | never more than the limit of an upstream's chunks wait |
| StrictOrder.StoreIsWaitingAndStale | src/iscp/down_order.rs:35-81 | the store holds one chunk for each number that waits and each number accepted again after its delivery |
| StrictOrder.StrictAcceptsExactly | src/iscp/down_order.rs:43-48 | duplicates allowed, a chunk is accepted if and only if it is next or those two numbers together are below the limit |
| StrictOrder.StaleDuplicateStays | src/iscp/down_order.rs:43-53 | a number accepted again after its delivery stays in the store in every continuation |
| StrictOrder.DuplicateCausesRefusal | src/iscp/down_order.rs:43-48 | the failing case: at limit 1 the numbers n, n, n + 2 refuse the last, n, n + 2 do not |
| BestEffortOrder.BestEffortDrain | src/iscp/down_order.rs:50-81 | a drain delivers one run of consecutive numbers from the least stored (store full) or from `next`, and leaves fewer than max(1, limit) chunks |
| BestEffortOrder.BestEffortAcceptsAll | src/iscp/down_order.rs:43-54 | best effort refuses nothing, and every arrival leaves the lane with nothing to release |
| BestEffortRuns.BestEffortDelivers | src/iscp/down_order.rs:35-81 | in every run a chunk whose arrival leaves room brings about the run of stored numbers from the one after the last delivered, none if that is not there; one that fills the store brings about the run from the least stored number; only what is delivered leaves the store |
| BestEffortOrder.BestEffortLetsNoneWait | src/iscp/down_order.rs:60-81 | the failing case: at limit 1 the numbers n, n + 2 are both delivered at once, while strict mode keeps the second |
| BestEffortOrder.ReorderingConserves | src/iscp/down_order.rs:35-81 | accepted chunks are exactly those delivered, stored, or overwritten by a duplicate number, in both modes |
| BestEffortOrder.DrainConserves | src/iscp/down_order.rs:60-81 | a drain neither adds nor loses a chunk |
| StableSort.SortIsStable | src/iscp/upstream.rs:495 | sorted by elapsed time, the same points, equal times in the old order |
| StableSort.SortIsDetermined | src/iscp/upstream.rs:531 | there is only one such arrangement |
| UpstreamChunks.Reverse | src/iscp/upstream.rs:432-439 | the reverse map holds exactly the aliased ids, each under one of its own aliases |
| UpstreamChunks.Collect | src/iscp/upstream.rs:510-526 | the loop's map is the buffer's points appended per key |
| UpstreamChunks.ListSorted | src/iscp/upstream.rs:528-538 | the groups list the map's entries once each, in some order, stably sorted |
| UpstreamChunks.ChunkMeansBuffer | src/iscp/upstream.rs:506-538 | resolved through the aliases, groups have distinct data ids, exactly those buffered, each with its points in write order stably sorted by time; an id travels under an alias exactly if it has one |
| UpstreamChunks.CallbackAgrees | src/iscp/upstream.rs:481-538 | the groups for the callback and those of the chunk are the same after resolving |
| UpstreamChunks.ChunkConservesPoints | src/iscp/upstream.rs:506-538 | a chunk holds exactly the points of the buffer |
| Upstream.AscendingHasAll | src/iscp/storage.rs:72-74 | the iterator yields exactly the stored chunks |
| Upstream.AscendingIncreases | src/iscp/storage.rs:72-74 | by increasing number |
| Upstream.UpstreamStorage.ProcessAck | src/iscp/storage.rs:50-60 | removes every acked number whatever the code, and raises the last number received to the greatest acked |
| Upstream.UpstreamStorage.IterChunks | src/iscp/storage.rs:72-74 | the stored chunks in ascending order |
| Upstream.UpstreamInner.WriteDataPoints | src/iscp/upstream.rs:180-199 | the group is buffered last and the payload counter grows by its payload |
| Upstream.UpstreamFlusher.constructor | src/iscp/upstream.rs:431-451 | the reverse alias map and the storage fit the stream |
| Upstream.UpstreamFlusher.TakeChunk | src/iscp/upstream.rs:471-558 | empties the buffer and its counter, numbers the chunk, counts its points; an empty buffer gives no chunk and no number |
| Upstream.UpstreamFlusher.Flush | src/iscp/upstream.rs:453-468 | the chunk is stored before it is sent, and stays stored when the send fails |
| Upstream.UpstreamFlusher.AfterResume | src/iscp/upstream.rs:564-590 | reliable: all stored chunks are sent in ascending order up to a failure; others: the buffer goes into a chunk that is not sent |
| Upstream.UpstreamFlusher.WaitForLastAck | src/iscp/upstream.rs:366-387 | the wait processes acks up to the first after which the last number received is the last issued, or all of them if the channel closes or time runs out |
| Upstream.UpstreamFlusher.ProcessRemainingDataPoints | src/iscp/upstream.rs:592-597 | a last chunk is taken and stored, not sent |
| Upstream.CountPoints | src/iscp/upstream.rs:511 | the number of points of the buffer |
| UpstreamLoop.TakeKeepsAccounts | src/iscp/upstream.rs:471-558 | taking a chunk keeps points written = issued + buffered, and both counters |
| UpstreamLoop.ResentFacts | src/iscp/upstream.rs:575-581 | a resend goes out by increasing number, has only stored chunks, and all of them if nothing fails |
| UpstreamLoop.StepIsSound | src/iscp/upstream.rs:265-421 | every step, the guard against the last number and the wait before a close included, keeps numbering, storage, accounts, cover of the connection and the last number received |
| UpstreamLoop.IssuedGrows | src/iscp/upstream.rs:540-557 | issued chunks are never changed or withdrawn |
| UpstreamLoop.ReliableUpstream | src/iscp/upstream.rs:322-359 | below 2^32 chunks: stored = issued and not acked, unchanged since issue; while the stream is on a connection every stored chunk has been enqueued there, by increasing number |
| UpstreamLoop.UpstreamAccounting | src/iscp/upstream.rs:471-558 | numbers are k + 1 modulo 2^32, and 1..n exactly below 2^32 chunks; points written = points issued + buffered; the counters are the number of points issued and the length of all payloads buffered |
| UpstreamLoop.CloseRequestReports | src/iscp/upstream.rs:395-401 | the close request reports the chunks and points issued, however the wait before it ended |
| UpstreamLoop.LastAckArrived | src/iscp/upstream.rs:366-376 | the close procedure has what it waits for exactly when the last chunk has been acked |
| UpstreamLoop.WaitOverMeansAllAckedIff | src/iscp/upstream.rs:366-387 | when the wait is over on a reliable stream, the storage is empty if and only if the numbers acked are 1, 2, ..., without a gap |
| UpstreamLoop.GaplessAcksEndTheWaitIff | src/iscp/upstream.rs:366-387 | if the numbers acked are an initial segment, the wait is over if and only if the storage is empty |
| UpstreamLoop.LaterAckEndsTheWait | src/iscp/upstream.rs:366-401 | the failing case: the close request goes out with chunk 2 acked and chunk 1 not |
| UpstreamLoop.WrappingEscapesTheGuard | src/iscp/upstream.rs:361-364 | a chunk whose number is not its position means that number 2^32 - 1 was not sent by a live flush, or is the one chunk of the data left over after closing |
| UpstreamLoop.GuardedNumbersWrapIff | src/iscp/upstream.rs:361-421 | if a live flush has sent number 2^32 - 1, numbers wrap if and only if there is one more chunk, made of the data left over after closing |
| UpstreamLoop.WaitingFlushesWrap | src/iscp/upstream.rs:284-308 | flushes without a connection run through to number 0 |
| UpstreamLoop.LiveFlushWraps | src/iscp/upstream.rs:353-361 | a live flush issues number 0 when the last number was used up before the connection |
| UpstreamLoop.RemainingDataWraps | src/iscp/upstream.rs:592-597 | after the guard has closed the stream the data left over gets number 0 |
| UpstreamLoop.CarriesCurrentAliasIff | src/iscp/upstream.rs:543 | after a resume under an alias the stream has not had before, an issued chunk carries the current alias if and only if it was issued since |
| UpstreamLoop.ResendKeepsTheOldAlias | src/iscp/upstream.rs:575-581 | the failing case: after a resume under a new alias the chunk resent carries the old one |
| UpstreamEvents.FlushIssuesAll | src/iscp/upstream.rs:284-364 | a flush puts everything written into chunks, sends the new one if it is on a connection that takes it, and leaves or closes as it should |
| UpstreamEvents.RemainingIsIssued | src/iscp/upstream.rs:592-597 | what is left at the end goes into one more chunk, not sent |
| UpstreamEvents.ResumeBringsBack | src/iscp/upstream.rs:322-333 | a resumed reliable stream sends its stored chunks by ascending number, all or the least ones, and stays exactly if all go through; another issues its buffer unsent and stays |
| UpstreamEvents.AcksAreTakenUp | src/iscp/upstream.rs:342-349 | an ack takes up exactly the numbers of its results and does nothing else |
| UpstreamEvents.WritesAreBuffered | src/iscp/upstream.rs:180-199 | a group written is buffered last, whatever state the stream is in |
| UpstreamEvents.LeavingMeans | src/iscp/upstream.rs:388-420 | a lost connection leads back to waiting unless the stream gives up; a failed resume and a close end it; nothing issued, stored or acked changes |
| Dictionary.DictionaryBuffer.constructor | src/transport/compression.rs:269-276 | an empty window of 2^bits bytes, for bits 9 to 15 |
| Dictionary.DictionaryBuffer.CopyToFront | src/transport/compression.rs:291 | the overlapping copy moves the last bytes to the front unharmed |
| Dictionary.DictionaryBuffer.PushMsg | src/transport/compression.rs:278-295 | the buffer becomes the last bytes of itself followed by the message; no index or subtraction goes out of range |
| Dictionary.DictionaryIsSlidingWindow | src/transport/compression.rs:278-295 | after any pushes the buffer is the last min(2^bits, total) bytes of everything |
| Session.Converter.Compress | src/transport/compression.rs:121-167 | result and new dictionary, also for a failure before and after the dictionary was updated |
| Session.Converter.Extract | src/transport/compression.rs:210-259 | result and new dictionary; a failure leaves the dictionary alone |
| Session.WriteLoop.Turn | src/wire/mod.rs:460-472 | a turn of the loop does what the session's write step says: frame, dictionary and whether the loop goes on |
| Session.ReadLoop.Turn | src/wire/read_loop.rs:56-67 | a turn of the loop does what the session's read step says: message, dictionary and whether the loop goes on |
| Session.ExtractUndoesCompress | src/transport/compression.rs:121-259 | with equal dictionaries the extractor restores what was compressed, blank data included |
| Session.WriteKeepsLockstep | src/wire/mod.rs:461-472 | a turn of the write loop, with encode, compression or transport failure, keeps both ends in step |
| Session.ReadKeepsLockstep | src/wire/read_loop.rs:49-66 | reading a frame restores the next message and moves the reader's dictionary on by it |
| Session.CommandKeepsLockstep | src/wire/read_loop.rs:36-49 | a command turn, which extracts an empty buffer, leaves the dictionary as it was |
| Session.SessionRoundTrip | src/wire/mod.rs:446-491 | the receiver has a prefix of what was written, never fails on it, and the dictionaries are those after the messages processed, equal when all is read |
| Session.SessionGoesOn | src/wire/mod.rs:446-491 | at any point of any run exactly the encodable messages written without a failure are sent, only a failure or the stop ends the write loop, and each read gives the next message sent |
| Session.FramesAreDeflated | src/transport/compression.rs:121-167 | in every run a message that is sent goes onto the wire as its encoding deflated with the last 2^bits bytes of all encodings sent before (nothing without context takeover), as it is if compression is off, and blank only if it is blank |
| Session.UnreadableFrameStops | src/wire/read_loop.rs:56-67 | for any codec, a frame that cannot be inflated or decoded ends the read loop without a message; any other gives its message and the loop goes on |
| Session.DictionaryAfterIsPushed | src/transport/compression.rs:128-135 | the dictionary after some messages is the sliding window over their encodings |
| LossySession.EveryArrivalIsRestored | src/wire/mod.rs:87-145 | without context takeover, the receiver sees exactly the messages whose frames arrive, whatever is lost or reordered, and never fails |
| LossySession.LostFrameBreaksLockstep | src/wire/mod.rs:87-213 | the failing case: with context takeover, any window size and a lossless codec, a lost frame makes the reader fail on the next |
| LossySession.RestoresArrivalsIff | src/wire/mod.rs:87-213 | every frame that arrives is restored, for all lossless codecs and in all runs, if and only if the mode is not context takeover |
| DownState.State.AddUpstreamInfo | src/iscp/down_state.rs:57-88 | a known upstream changes nothing; a new one gets the next alias, in the table and for the next ack; a malformed id is an error |
| DownState.State.TakeAckMessage | src/iscp/down_state.rs:99-121 | takes all pending results and aliases under the next ack id, or nothing |
| DownState.ConvertDownstreamChunk | src/iscp/downstream.rs:525-576 | result and new state of a conversion in all its error cases |
| DownState.ResolveGroups | src/iscp/downstream.rs:538-557 | the loop resolves the groups in order and stops at the first failure |
| DownState.GroupsAreResolved | src/iscp/downstream.rs:538-557 | it succeeds exactly if every group is resolvable, and each then keeps place and points under its id |
| DownState.FailedConversionChangesNothing | src/iscp/downstream.rs:525-576 | an error or a skipped chunk leaves the state unchanged |
| Conversion.ConvertsIff | src/iscp/downstream.rs:525-576 | a conversion succeeds if and only if the chunk is not skipped, its groups are resolvable and its upstream can be found; the result then has the number, the resolved groups with their points in place, and the upstream described or known by the alias |
| DownState.AckConservation | src/iscp/down_state.rs:46-121 | results acked, in order, then pending are those of the chunks converted; ack ids are 0, 1, 2, ... modulo 2^32; there is an ack, under the alias of the time, for each taking that finds something pending |
| DownState.AliasTable | src/iscp/down_state.rs:57-121 | aliases are exactly 0..n-1, one per distinct upstream, each announced in exactly one ack or pending |
| DownState.AliasesAreStable | src/iscp/down_state.rs:66-86 | no alias ever changes its meaning |
| DownState.AnnouncedAliasResolves | src/iscp/downstream.rs:559-565 | an announced alias resolves to the upstream announced |
| DownState.CloseWaitEndsIff | src/iscp/downstream.rs:420-426 | the wait compares ids as numbers: over if the last is 0 or a completion with at least its id has come |
| DownState.CloseWaitInRuns | src/iscp/downstream.rs:420-446 | the same by position of the acks, in every run and for completions of any of them in any order |
| DownState.CloseWaitIsForTheLastAck | src/iscp/downstream.rs:420-446 | up to 2^32 acks the wait is over if and only if at most one ack was taken or the last one has been completed |
| DownState.OldCompletionEndsTheWait | src/iscp/downstream.rs:599-605 | the second failing case: beyond 2^32 acks the completion of ack 2^32 - 1 ends the wait for a later one |
| DownState.AnyNumberOfAcks | src/iscp/down_state.rs:99-121 | there are runs with any number of acks |
| DownState.FirstAckIsNotAwaited | src/iscp/downstream.rs:233 | the failing case: the first ack counts as complete at once |
| Downstream.DownstreamLoop.constructor | src/iscp/downstream.rs:231-236 | the state and the reorderer of a fresh downstream |
| Downstream.DownstreamLoop.ReceiveChunk | src/iscp/downstream.rs:331-385 | a converted chunk goes through the reorderer to the application, in the loop as far as that takes chunks and in the final drain as far as each finds room; a refusal ends the loop |
| Downstream.TryAll | src/iscp/downstream.rs:378-380 | of the chunks tried, exactly those that find room arrive, in order |
| Downstream.DownstreamLoop.SendAck | src/iscp/downstream.rs:320-328 | an ack is taken from the state; nothing else changes |
| Downstream.ResultsMatchChunks | src/iscp/downstream.rs:306-414 | results acked then pending are those of the chunks accepted, in order, of the one refused, and of those that came after the application had closed its end |
| Downstream.ApplicationSeesAllIff | src/iscp/downstream.rs:331-385 | in every run the application sees a subsequence of what the reorderer delivers, and all of it if and only if no chunk found the channel full in a final drain and it has not closed its end |
| Downstream.StrictStreamsArriveInOrder | src/iscp/downstream.rs:331-385 | with strict reordering an upstream's chunks are delivered in order of number up to the first missing one, and the application gets a subsequence of that, or all of it unless a channel was full or closed |
| Downstream.MissedIsGone | src/iscp/downstream.rs:372-385 | in strict mode no chunk the application sees, at any time, has the number of one that was delivered and did not reach it |
| Downstream.FullChannelLeavesAGap | src/iscp/downstream.rs:320-385 | the failing case: a strict stream whose application listens and has got the first and third chunk but not the second, which has been acknowledged |
| Downstream.AcceptedChunksAreConserved | src/iscp/downstream.rs:331-347 | an upstream's accepted chunks are delivered, stored or overwritten by a duplicate |
| Downstream.DeliveredIsAcknowledged | src/iscp/downstream.rs:306-347 | the result of every chunk the application sees is in an ack or pending |
| Receiving.ChunksAreTakenUpIff | src/iscp/downstream.rs:331-385 | in every run a chunk received where the loop takes it is taken up, in order and with its contents, if and only if it can be converted; nothing else is |
| Receiving.SeenWasReceived | src/iscp/downstream.rs:331-385 | every chunk the application sees has number, points and upstream of a chunk received |
| Receiving.RefusedIff | src/iscp/down_order.rs:43-48 | a chunk taken up ends the loop if and only if strict reordering refuses it on top of its upstream's accepted chunks |
| Receiving.StreamsAreReordered | src/iscp/downstream.rs:331-385 | what is delivered of an upstream is what the reorderer delivers of its accepted chunks alone; without reordering it is all |
| Receiving.StateIsARun | src/iscp/downstream.rs:306-414 | the state of a downstream is one of the runs of which conservation of acks and the alias table are proved |
| Resume.Stream.FillToken | src/iscp/upstream.rs:697-699 | an empty local token is filled from the cell, which this empties |
| Resume.Stream.RequestResume | src/iscp/upstream.rs:703-722 | a grant stores alias and token and ends the need to resume; an error retries or ends the round |
| Resume.Stream.TryOnce | src/iscp/downstream.rs:244-290 | one turn of the loop, for both sides |
| Resume.Stream.GetConnAndResume | src/iscp/upstream.rs:676-739 | a whole round, also when its time runs out |
| Resume.Stream.TryAgain | src/iscp/upstream.rs:325-333 | after a failed resend no resume is demanded, after the flush loop it is |
| Resume.TurnIsSound | src/iscp/upstream.rs:693-736 | every turn keeps the entitlement and the whereabouts of the token |
| Resume.AttachSafety | src/iscp/downstream.rs:238-292 | a registration follows an open or resume on that connection under that alias, the latest, with no move since and, for an upstream, no flush loop |
| Resume.TokenDiscipline | src/iscp/upstream.rs:690-722 | a round starts with the latest token in the cell, and every request carries the round's first non-empty token |
| Resume.RetriesRepeatTheToken | src/iscp/downstream.rs:239-272 | until a resume succeeds, the first request of a round and its retries carry the latest token |
| Resume.LatestTokenIsSentIff | src/iscp/upstream.rs:697-708 | with non-empty distinct tokens a request carries the latest one exactly if no resume has succeeded in its round |
| Resume.StaleTokenIsSent | src/iscp/upstream.rs:704-706 | the failing case: a second resume in one round sends the old token |
| ResumeRounds.AttachesIff | src/iscp/upstream.rs:693-739 | in every run a round attaches the stream if and only if it gets to a turn in which the connection is up and takes the registration and no resume is needed; it is then registered on the connection and under the alias of the latest open or resume, and otherwise ends |
| ResumeRounds.RoundGoesAsSaid | src/iscp/downstream.rs:242-292 | what a round does up to where it stops: moves, one request per turn that needs one, with connection and token, grants, and the registration |
| ResumeRounds.DepartingMeans | src/iscp/upstream.rs:412-420 | a stream that leaves its connection tries again unless it is over, and needs a resume then exactly if it is an upstream that was in its flush loop |
| ReadLoop.ReadLoopChannels.ProcessCommand | src/wire/read_loop.rs:152-201 | the tables hold exactly the latest registration under each key |
| ReadLoop.ReadLoopChannels.ProcessMessage | src/wire/read_loop.rs:203-237 | a message goes to the channel registered last for it and not removed since; a call ack uses up its subscription |
| ReadLoop.RegistrationLasts | src/wire/read_loop.rs:152-237 | a registration survives any inputs that leave its key alone |
| ReadLoop.CallIsAckedOnce | src/wire/read_loop.rs:227-231 | a second ack of a call goes nowhere until the call id is subscribed again |
| ReadLoop.ReachesIff | src/wire/read_loop.rs:152-237 | a message reaches a channel if and only if a command registered that for the alias or call id it carries and no later input replaced or ended this |
| Requests.ConnInner.DownstreamStreamIdAlias | src/wire/mod.rs:396-402 | gives the counter, or an error at 0, and moves it on |
| Requests.ConnInner.StartRequest | src/wire/mod.rs:246-253 | before it is sent a request draws the next id and puts its sender under it, which are the two steps the runs are made of |
| Requests.ReadLoopTask.Handle | src/wire/read_loop.rs:69-118 | where each message goes: pong, ping loop, exit, call receivers, a stream's channel, the requester under its even id, or nowhere |
| Requests.ResponsesReachTheTable | src/wire/read_loop.rs:69-113 | no response kind is consumed before the table of requesters is consulted |
| Requests.RequestsPairWithResponses | src/message/mod.rs:215-245 | exactly nine kinds are requests, with different responses, none of which is a request |
| Requests.AnswersIff | src/wire/read_loop.rs:69-113 | a message is for a requester exactly if it has an even request id and is no ping, pong or downstream metadata |
| Requests.OtherwiseGoesTo | src/wire/read_loop.rs:69-101 | which kinds go to the ping loop, the call receivers, a stream's channel, or end the loop |
| Requests.DrawsAgreeIff | src/wire/mod.rs:573-581 | ids are even, and two draws agree exactly when a multiple of 2^31 apart |
| Requests.StepIsSound | src/wire/mod.rs:246-274 | every step keeps ids, the one place of each sender, and who was given what |
| Requests.OneMessageEach | src/wire/mod.rs:246-274 | in every interleaving a requester gets at most one message, with its id; an Ok result is that message, of its response kind and with code Succeeded |
| Requests.ResponseArrives | src/wire/mod.rs:254-273 | a response read while its requester waits decides its result in every continuation in which the loop hands it over, then the requester looks, and it has not given up before: Ok if and only if it is of the right kind with code Succeeded, and the errors for another kind, an unknown code and any other code |
| Requests.NoMessageNoResult | src/wire/mod.rs:255-258 | a requester without a message fails when it gives up or its sender is gone, and waits otherwise |
| Requests.InsertOverwritesIff | src/wire/mod.rs:552-561 | a new requester pushes another out exactly when their draws are a multiple of 2^31 apart |
| Requests.RequesterIsPushedOut | src/wire/mod.rs:552-561 | the failing case: a run in which a waiting requester's sender is gone |
| Requests.NobodyIsLost | src/wire/mod.rs:246-274 | within 2^31 draws a waiting requester keeps its place until a message for it is read |
| Requests.AliasesRepeatIff | src/wire/mod.rs:396-402 | which alias draws fail, and that an alias is drawn again exactly 2^32 draws later, after a failure |

## Left out

- Transports, TLS, connectors and their length-prefix framing: input and output over libraries.
- The DEFLATE algorithm and the protobuf encoding are parameters with a round-trip hypothesis; the loop that feeds `flate2` in pieces is one call.
- Scheduling and cancellation inside a future: steps are atomic. Channel capacity appears only as whether a chunk finds room.
- Downstream.DownstreamLoop.ReceiveChunk: for chunks converted after the application has closed its end (src/iscp/downstream.rs:336-339) what the reorderer does is not modelled; they reach nobody, whether it keeps, yields or refuses them.
- Real time: frame expiry uses given clock readings; all other timeouts are events that may come at any time.
- Sending an ack can fail after it was taken, which loses it (src/iscp/downstream.rs:322-326): conservation is stated over acks taken.
- Application callbacks, other than the groups handed to them. Metadata messages, end-to-end calls, connection close and reconnection, builders, configuration and token sources.
- `DataId` parsing, `FlushPolicy` and error classification: small case splits. Result strings and extension fields.
- `data_size` of the flusher is never read and is not modelled. `usize` arithmetic is unbounded: the message limit of a splitter and the payload counter do not overflow.
- The order of frames with equal indices under the unstable sort is not determined; it matters only for repeated frames that differ, which the channel does not produce.
- DownState.State.AddUpstreamInfo: where the 2^32 aliases are used up the original panics while holding its lock; the model returns an error.
- Upstream.UpstreamFlusher.TakeChunk: the original adds 1 to a u32 without an overflow check of its own; the model wraps.
- The close procedures are modelled up to the decision to end; of their messages only the upstream's close request is.
