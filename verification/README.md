# Poby, modelled and verified in Dafny

Poby pulls container images with the help of a DPU. A registry serves the layers of an image as compressed
segments; the DPU fetches them over RDMA, inflates them with a hardware engine straight into the memory of the
host, and the host writes each layer to its own `tar` process. The work is done by event-driven objects on three
machines and several threads that share a small, fixed set of buffers, so what matters about the program (order,
exactly-once delivery, who owns a buffer, that nothing waits for ever) is stated by none of its functions.

This project models the program as step systems and as the objects that take the steps, and proves those properties
for every run. `dafny verify dfyconfig.toml` checks all of it.

## How the project is built

A component is modelled twice. The *step system* is a datatype for its state, a function per callback, `Enabled` and
`Apply` for its events, and lemmas about every sequence of enabled events. `Outcome.Crash` stands for a failed
`assert`, a dereferenced empty `optional` or `front()` of an empty deque, so `Run(..).Ok?` says that none of these
happens. The *objects* are classes with the program's fields and callbacks; the contract of each method equates the new
state with the step function applied to the old one, so the theorems about runs are theorems about the objects.

| files | what they cover |
|---|---|
| `Segments`, `Splitter`, `ImageCompress` | segments, and the tool that cuts layers into them |
| `Fetch`, `ContentClient` | fetching: `ContentClient` and `ContentServer` |
| `Decompress`, `DecompressClient` | the decompress stage: DPU client, engine, host |
| `Untar`, `UntarTable`, `DecompressServer` | the host's server, its untar workers and their table |
| `Pipeline`, `Answers` | the whole pipeline, and what a reply to a pull means |
| `Pulls`, `OffloadClient` | bookkeeping of pulls |
| `WholeSystem`, `Statuses`, `Rounds` | pulls and pipeline joined; what tar returns; pulling again |
| `Rdma`, `RdmaConnection`, `Carving` | RDMA buffers: credits, the connection object, the cut of the allocation |
| `Handshake`, `RdmaConnector` | the RDMA handshake over TCP |
| `Timers`, `TimerSemantics`, `TimerQueue`, `EventLoops`, `EventLoop` | timers and the event loop |
| `Endian`, `ByteBuffer`, `TcpStreams`, `TcpConnection`, `Framing` | byte buffer, TCP connection, message frames |
| `Base` | shared vocabulary |

## Main results

- `WholeSystem.AnswersAreTrue`, `WholeSystem.EveryMaximalRunAnswers`: in every run of host, DPU, registry and workers
  together nothing fails, no pull is answered twice, an answered pull has every byte of every layer written; runs are
  bounded, and one that cannot go on, with no failed load, has answered exactly the pulls of images with layers.
- `Rounds.PulledAgain`: the same after any number of rounds, so images can be pulled again once the system has come to
  rest, if their layers have at least two segments.
- `Pipeline.EndToEnd`, `Pipeline.EveryMaximalRunCompletes`: for every registry content, segment size, number of buffers
  and interleaving, no callback fails, what is written to a layer's `tar` is always a prefix of the layer and all of it
  when the task ends; runs are bounded, and a run that cannot go on has written every layer asked for.
- `Answers.AnsweredIffUnpacked`: the counter that triggers the reply to a pull reaches the number of layers if and only
  if all bytes of all layers of the image have been written.
- `Decompress.DeliversInOrder`, `.BuffersNeverShared`, `.DestinationIsStable`: the stage is a FIFO map, every buffer has
  one owner, and a destination buffer does not change before it is copied.
- `Handshake.EveryMaximalRunConnects`: however TCP cuts the streams, both sides connect once, in at most 90 steps.
- `Rdma.SafeIffServerHasEnough`, `Carving.TilesIffLengthFits`, `UntarTable.RestartableIff`, `EventLoops.EntrySafeIff`,
  `EventLoops.QuitKeptIff`, `TcpStreams.SecureIffNothingQueued`, `TcpStreams.ShutWhenEmptyIff`,
  `Framing.AllReadIffPaced`, `Framing.AlwaysReadIff`, `Pulls.NeverStuckIffAllLoad`, `Pulls.PullSafeIffFresh`: exact conditions under which the
  code meets what is expected of it.

## Where the code falls short of what one might expect

Where two lemmas are named, the first gives a failing run and the second says exactly when the property holds. Where one
is named, it is an if-and-only-if that holds both halves.

- A client with more RDMA buffers than its server overruns the server's receive queue (`Rdma.FewerServerBuffersFail`,
  `Rdma.SafeIffServerHasEnough`).
- The cut of the RDMA allocation wraps at 2^31 bytes per buffer (`Carving.LastAddressMissed`,
  `Carving.TilesIffLengthFits`).
- An untar worker may end before its queue is entered into the table; the entry stays, and a second pull of the layer
  goes to a dead queue. This happens to layers of one segment and to no others (`UntarTable.StaleEntry`,
  `UntarTable.RestartableIff`). A worker that meets an empty segment never erases its entry
  (`UntarTable.FailedNeverErased`).
- A timer cancelled before its insertion has run is scheduled all the same (`Timers.CancelTakesEffectIffInserted`).
- Work that the loop's own thread queues before `loop()` does not wake the loop (`EventLoops.SilentEntry`,
  `EventLoops.EntrySafeIff`), and a `quit()` between the first two assignments of `loop()` is forgotten
  (`EventLoops.QuitForgotten`, `EventLoops.QuitEndsLoopIff`).
- A message that another thread handed to `send()` is lost if the loop's thread calls `shutdown()` before it is written
  (`TcpStreams.QueuedIsLost`, `TcpStreams.SecureIffNothingQueued`).
- A `shutdown()` handed over by another thread may run after the peer has closed, and shuts the write side in front of
  accepted bytes (`TcpStreams.LateShutdownLeavesBytes`, `TcpStreams.ShutWhenEmptyIff`).
- The command server reads one message per callback, so of two that arrive together the second waits
  (`Framing.TwoAtOnce`, `Framing.AlwaysReadIff`); a frame longer than `INT_MAX` is never read
  (`Framing.ReceivedIffSendable`); an RDMA frame with a length of -4..-1 reaches protobuf (`Framing.ParseRdmaFailsIff`).
- A pull whose metadata does not load costs a send buffer for ever and can strand the pulls behind it
  (`Pulls.LeakAll`, `Pulls.NeverStuckIffAllLoad`); a second pull of an image in flight ends in a failed assertion
  (`Pulls.DoomedFails`, `Pulls.PullSafeIffFresh`).
- A pull is answered with success although `tar` has failed for every layer (`Statuses.FailureIsAnswered`); in every run
  the pulls and their answers are the same whatever `tar` returned (`Statuses.StatusesIgnored`).

## Assumptions

They appear as preconditions or in `Enabled` and are those the design makes.

- A layer digest is pulled at most once in a run (`Fetch.Enabled`), since the untar table is keyed by digest alone
  (src/host/client/untar_engine.cc:66).
- Images in flight are distinct (`Pulls.Fresh`); `emplace` ignores a second one
  (src/host/client/offload_client_epoll.cc:236). In `WholeSystem` an image is pulled once in a run, and images share no
  layer, which is what the first assumption means for pulls; `Rounds` lifts the first half.
- Messages fit their buffers, segment files are non-empty, and counts of buffers and threads are at least one.
- In `completeTask` the connection is taken before the task is erased; the code reads it afterwards
  (src/host/client/offload_client_epoll.cc:115-120).
- Compression is `Packed(bytes, size)`, whose first component is what it inflates to. The engine may write anything
  into the running job's destination (`EScribble`) before it completes.
- An RDMA connection is two FIFO channels in `Fetch` and `Decompress`; `Rdma` shows what makes that true of the buffers.
- Elements go from the fetcher's thread to the DPU client in order, which is what `EventLoops` proves of `runInLoop`.

## Model

| member | source | states |
|---|---|---|
| `WholeSystem.AnswersAreTrue` | src/dpu/offload_server_epoll.cc:103-146 | In every run of pulls and pipeline together nothing fails, no pull is answered twice, and an answered pull has every byte of every layer of its image written |
| `WholeSystem.EveryMaximalRunAnswers` | src/host/client/offload_client_epoll.cc:67-126 | Internal steps are at most 9 plus, per pull, 2, two per layer and 13 per segment; with none left and no failed load exactly the pulls of images with layers are answered |
| `WholeSystem.CallersAreAnswered` | src/host/client/offload_client_epoll.cc:106-126 | In every run the pulls on record are those made, in order, with their connections; an answer goes to a connection that pulled that image; at rest with no failed load every connection that pulled an image with layers has been answered |
| `WholeSystem.AnsweredWithLastReport` | src/host/client/offload_client_epoll.cc:106-126 | A reply goes out in the step that handles the last report for an image, to the pull of that image, and in no other step |
| `WholeSystem.AnsweredIffCounted` | src/host/client/offload_client_epoll.cc:106-126 | A pull that was taken up is answered exactly when as many reports as layers have been handled, successful or not |
| `WholeSystem.ReportOwed` | src/host/client/offload_client_epoll.cc:109-111 | Every report finds its task: the assertion of completeTask holds |
| `WholeSystem.StepKeeps` | src/dpu/offload_server_epoll.cc:103-146 | Every step keeps pulls, fetch calls, pipeline and reports in step, and fails no assertion |
| `WholeSystem.RunKeeps` | src/dpu/offload_server_epoll.cc:103-146 | The same after every run, with internal steps bounded by the cost of the pulls |
| `WholeSystem.ComesToRest` | src/dpu/offload_server_epoll.cc:103-146 | From every reachable state a run without further pulls leads to a state with nothing left to do |
| `WholeSystem.SomeRunAnswers` | src/host/client/offload_client_epoll.cc:106-126 | For every image with layers and every connection there is a run from the start that answers its pull on that connection |
| `Statuses.StatusesIgnored` | src/host/client/untar_engine.cc:46-55 | For every run and any other exit statuses of tar: the run stays possible, fails or not alike, and leaves the same pulls with the same replies |
| `Statuses.AnsweredThoughAllFailed` | src/host/client/offload_client_epoll.cc:106-126 | Every run gives the same replies when every tar fails and every report says so |
| `Statuses.FailureIsAnswered` | src/host/client/offload_client_epoll.cc:106-126 | For every image with layers and every connection, a run from the start that answers its pull although every report says failure |
| `Rounds.PulledAgain` | src/host/client/untar_engine.cc:63-91 | After any number of rounds that came to rest, in every further run: nothing fails, an answer means that every byte was written in this round, and at rest exactly the pulls of images that load are answered |
| `Rounds.ForgetKeeps` | src/host/client/untar_engine.cc:40-40 | At rest, with layers of at least two segments, no trace but history is left: forgetting it gives a state with the invariant of a run |
| `Rounds.TableAtRest` | src/host/client/untar_engine.cc:40-40 | At rest the untar table is empty if every layer asked for has at least two segments |
| `Pipeline.EndToEnd` | src/host/client/untar_engine.cc:24-40 | In every run of the composed system no callback fails, the bytes written to a layer's tar are a prefix of the layer, and equal it once the task has ended |
| `Pipeline.EveryMaximalRunCompletes` | src/dpu/decompress_client_epoll.cc:72-141 | At most 6 internal steps plus 13 per segment asked for; a run without further internal steps has untarred every layer asked for |
| `Pipeline.QuietMeansComplete` | src/dpu/decompress_client_epoll.cc:290-305 | A reachable state with no internal step enabled has a finished task with the whole content for each layer asked for |
| `Pipeline.StepKeeps` | src/dpu/decompress_client_epoll.cc:299-328 | Every step of any machine keeps the pipeline invariant and, unless it is a new pull or a partial hardware write, lowers the work left |
| `Pipeline.RunKeeps` | src/dpu/content_fetcher.cc:67-117 | The invariant holds after every run, and internal steps are bounded by work |
| `Pipeline.WrittenIsContentPrefix` | src/host/client/untar_engine.cc:24-40 | Under the invariant each task has written a prefix of its layer's content |
| `Answers.AnsweredIffUnpacked` | src/host/client/offload_client_epoll.cc:106-126 | In every run, also while layers are still to be asked for: reports for an image never outnumber its layers, and equal them if and only if every layer is completely written |
| `Answers.ReportedIffUnpacked` | src/host/client/untar_engine.cc:42-56 | A layer is reported under its image exactly when its task has ended with all its bytes written |
| `Answers.StepLabelled` | src/host/client/untar_engine.cc:63-91 | Tasks and reports always carry the image for which their layer was asked |
| `Decompress.DeliversInOrder` | src/dpu/decompress_client_epoll.cc:218-257 | In every run the host is handed the inflated segments in submission order, each once, with their own metadata, and no callback fails |
| `Decompress.BuffersNeverShared` | src/doca/compress.h:260-306 | In every reachable state each buffer pair has exactly one owner, each send buffer is free or in flight, and finish messages wait only when no send buffer is free |
| `Decompress.DestinationIsStable` | src/host/client/decompress_server_epoll.cc:143-181 | In every run, from the moment the hardware completes a job: its destination memory is unchanged until the host copies it, and what the host copies is what was there |
| `Decompress.StepMoves` | src/dpu/decompress_client_epoll.cc:218-257 | Completed jobs form a queue through completion, finish messages and requests: a step adds at its end or copies its first member |
| `Decompress.QuietMeansDelivered` | src/dpu/decompress_client_epoll.cc:125-141 | Nothing internal enabled implies everything submitted has been delivered, for any number of pairs and send buffers |
| `Decompress.EveryMaximalRunDelivers` | src/dpu/decompress_client_epoll.cc:66-141 | Internal steps are at most 5 plus 8 per segment; a maximal run has delivered everything |
| `Decompress.StepKeeps` | src/dpu/decompress_client_epoll.cc:167-203 | Every callback keeps the stage's invariant and lowers the staged work |
| `Decompress.RunKeeps` | src/dpu/decompress_client_epoll.cc:66-328 | The invariant holds after every run |
| `Decompress.SubmitKeeps` | src/dpu/decompress_client_epoll.cc:299-328 | Submitting a segment keeps ownership and order |
| `Decompress.TryStartKeeps` | src/dpu/decompress_client_epoll.cc:125-141 | Starting the next job takes a free pair and the oldest waiting segment and leaves no idle engine beside both |
| `Decompress.JobDoneKeeps` | src/dpu/decompress_client_epoll.cc:218-257 | The completion callback sends or queues the finish message and keeps the invariant |
| `Decompress.HostRecvKeeps` | src/host/client/decompress_server_epoll.cc:134-186 | Receiving a finish message hands over exactly the next segment submitted |
| `Decompress.AcknowledgesTheCopy` | src/host/client/decompress_server_epoll.cc:158-181 | The acknowledgement names layer and index of the piece just copied, and the pair of its request |
| `Decompress.DpuRecvKeeps` | src/dpu/decompress_client_epoll.cc:66-90 | An acknowledgement returns its pair, sends a queued finish message, starts a job if the engine is idle, and keeps the invariant |
| `Decompress.ConnectKeeps` | src/dpu/decompress_client_epoll.cc:144-165 | The memory-map request takes a send buffer that is there |
| `DecompressClients.CompressEngine.constructor` | src/doca/compress.cc:52-66 | All pairs free, engine idle |
| `DecompressClients.CompressEngine.AcquireFreeBufpair` | src/doca/compress.h:298-306 | Takes the pair released last, or nothing exactly when none is free |
| `DecompressClients.CompressEngine.ReleaseFreeBufpair` | src/doca/compress.h:293-296 | The pair joins the free list at the end from which pairs are taken |
| `DecompressClients.CompressEngine.StartJob` | src/doca/compress.h:260-279 | The engine is busy with the given pair |
| `DecompressClients.DecompressClient.StartDecompressJob` | src/dpu/decompress_client_epoll.cc:92-123 | The job records the element's own image, layer, index and pair, its data is in that pair's source buffer, and the engine is busy with it; refines `Decompress.StartJob` |
| `DecompressClients.DecompressClient.TryStartDecompressJob` | src/dpu/decompress_client_epoll.cc:125-141 | The oldest waiting segment starts if a pair is free and nothing changes otherwise; refines `Decompress.TryStart`, so `Decompress.TryStartKeeps` holds of the object |
| `DecompressClients.DecompressClient.SubmitDecompressTask` | src/dpu/decompress_client_epoll.cc:299-305 | The segment queues behind the others and starts only on a connected idle engine; refines the step of `Decompress.SubmitKeeps` |
| `DecompressClients.DecompressClient.OnConnected` | src/dpu/decompress_client_epoll.cc:144-165 | One memory-map request in the first free send buffer; refines the step of `Decompress.ConnectKeeps` |
| `DecompressClients.DecompressClient.SendDecompressFinishRequest` | src/dpu/decompress_client_epoll.cc:331-367 | The finish message with the job's metadata is posted in the given buffer |
| `DecompressClients.DecompressClient.OnDecompressTaskSuccess` | src/dpu/decompress_client_epoll.cc:218-257 | The finish message goes out or queues behind the others, then the next job is tried; refines the step of `Decompress.JobDoneKeeps` |
| `DecompressClients.DecompressClient.HandleDecompressFinishResponse` | src/dpu/decompress_client_epoll.cc:66-90 | The pair is free again, the oldest queued finish message takes the send buffer, and an idle engine tries the next job; refines the step of `Decompress.DpuRecvKeeps` |
| `DecompressClients.DecompressClient.HandleMmapInfoResponse` | src/dpu/decompress_client_epoll.cc:265-297 | Connected, and the first job is tried |
| `DecompressClients.DecompressClient.OnRecvSuccess` | src/dpu/decompress_client_epoll.cc:167-203 | The oldest send buffer in flight is released and the message dispatched |
| `Fetch.EachLayerArrivesInOrder` | src/dpu/content_fetcher.cc:104-116 | In every interleaving of distinct layers each layer's segments arrive as 0, 1, 2, .. with the registry's contents |
| `Fetch.EveryAnswerWeighsOne` | src/dpu/content_fetcher.cc:104-116 | The weight of unanswered requests (all segments for index 0, one otherwise) drops by exactly one per answer |
| `Fetch.QuietMeansFetched` | src/dpu/content_fetcher.cc:135-173 | With no step left every layer asked for has arrived completely |
| `Fetch.StepKeeps` | src/dpu/content_fetcher.cc:67-117 | Every step keeps contents, credit, flow and order |
| `Fetch.RunKeeps` | src/dpu/content_fetcher.cc:67-173 | The invariant holds after every run |
| `Fetch.FlushedKeeps` | src/dpu/content_fetcher.cc:135-142 | Sending what can be sent leaves no request waiting beside a free buffer |
| `Fetch.RestDue` | src/dpu/content_fetcher.cc:104-115 | The answer to segment 0 gives rise to requests for exactly the rest of its layer, in order |
| `Fetch.RestGoesFirst` | src/dpu/content_fetcher.cc:104-116 | The answer to segment 0 of n puts the requests for 1..n-1, in order, behind what has been sent and in front of everything that waits; any other answer leaves the line alone |
| `Fetch.LineMoves` | src/dpu/content_fetcher.cc:135-173 | Asking for a layer adds its segment 0 at the end of the line of requests, the server takes from its front, connecting changes nothing |
| `ContentClients.ContentClient.SendRequest` | src/dpu/content_fetcher.cc:150-173 | The first waiting request goes out in the first free buffer, which becomes the last in flight |
| `ContentClients.ContentClient.TrySendRequests` | src/dpu/content_fetcher.cc:135-142 | The loop sends as many requests as there are buffers, in order |
| `ContentClients.ContentClient.EnqueueRequest` | src/dpu/content_fetcher.cc:144-148 | The request joins the end of the queue |
| `ContentClients.ContentClient.FetchLayer` | src/dpu/content_fetcher.cc:181-204 | A request for segment 0 is queued and sent if possible |
| `ContentClients.ContentClient.OnConnected` | src/dpu/content_fetcher.cc:59-65 | Waiting requests go out |
| `ContentClients.ContentClient.OnRecvSuccess` | src/dpu/content_fetcher.cc:67-117 | The segment is submitted and its buffer released; sent and waiting requests together are the old ones with the rest of the layer in front of those that waited |
| `ContentClients.ContentServer.OnRecvSuccess` | src/host/server/content_server.cc:93-152 | One answer for a segment that exists and none otherwise, in the oldest free buffer, which is released at once |
| `Untar.WrittenIsPrefix` | src/host/client/untar_engine.cc:24-40 | Each task has written a prefix of its layer, and all of it when it ended on the last index |
| `Untar.ReportedOnce` | src/host/client/untar_engine.cc:42-56 | A layer is reported once, when its task has ended, and not before |
| `Untar.SomeWorkerMoves` | src/host/client/untar_engine.cc:58-84 | With everything handed over, an unfinished task means that some worker within the thread limit can move |
| `Untar.WithinThreadLimit` | src/host/client/untar_engine.cc:58-61 | At any time at most as many workers as there are threads can move |
| `Untar.ReportTells` | src/host/client/untar_engine.cc:24-56 | A worker that ends reports its layer and image, and success exactly when it ended on a last segment that was not empty and tar returned 0 |
| `Untar.GiveKeeps` | src/host/client/untar_engine.cc:63-91 | Routing the next piece of any layer keeps one task per layer and all queues in order |
| `Untar.WorkKeeps` | src/host/client/untar_engine.cc:11-56 | A worker's round keeps the invariant |
| `Untar.EmplaceKeeps` | src/host/client/untar_engine.cc:80-86 | Entering the queue into the table keeps the invariant, whatever its worker has done meanwhile |
| `UntarTable.RestartableIff` | src/host/client/untar_engine.cc:63-91 | In every run a second pull of a layer that was untarred starts a new task, if and only if the layer has at least two segments (or is one empty segment, which never ends well) |
| `UntarTable.StaleEntry` | src/host/client/untar_engine.cc:80-86 | For every layer of one segment, the schedule that leaves its entry in the table |
| `UntarTable.RunTidy` | src/host/client/untar_engine.cc:11-91 | In every run a worker that ended well on a layer of two or more segments has left no entry |
| `UntarTable.FailedNeverErased` | src/host/client/untar_engine.cc:24-40 | After a worker has met an empty segment, no piece of its layer starts a task in any later state |
| `UntarTable.PipelineRestartable` | src/host/client/untar_engine.cc:63-91 | The same for every run of the whole pipeline |
| `UntarTable.KnownIffStarted` | src/host/client/untar_engine.cc:63-91 | In every run, whatever is handed over: a layer gets a worker or a report on behalf of an image if and only if a piece of it for that image arrives while the layer has no entry |
| `DecompressServers.UntarEngine.UntarPiece` | src/host/client/untar_engine.cc:63-91 | The piece joins its layer's queue, or starts a task |
| `DecompressServers.UntarEngine.Emplace` | src/host/client/untar_engine.cc:86-86 | The new queue is entered unless the layer is there |
| `DecompressServers.UntarEngine.WorkerRound` | src/host/client/untar_engine.cc:24-56 | Dequeue, write, and end on an empty segment or the last index |
| `DecompressServers.DecompressServer.Reply` | src/host/client/decompress_server_epoll.cc:164-181 | Acquire, post, release: the free list rotates by one |
| `DecompressServers.DecompressServer.HandleMmapInfoRequest` | src/host/client/decompress_server_epoll.cc:88-132 | One response that names every buffer |
| `DecompressServers.DecompressServer.HandleDecompressFinishRequest` | src/host/client/decompress_server_epoll.cc:134-186 | The named bytes are copied and handed to the untar engine, and acknowledged with the same layer, index and pair |
| `DecompressServers.DecompressServer.OnRecvSuccess` | src/host/client/decompress_server_epoll.cc:50-86 | One answer per message, and the bytes named by a finish message go to the untar engine; refines `Decompress.HostRecv` |
| `Splitter.ChunksJoin` | tool/image_compress.cc:129-174 | The segments of a layer, joined, are the layer |
| `Splitter.ChunkSizes` | tool/image_compress.cc:159-174 | No segment exceeds the size, and only an empty layer has an empty one |
| `Splitter.ChunksFull` | tool/image_compress.cc:159-162 | Every segment but the last has exactly the segment size |
| `ImageCompressor.ImageCompress.constructor` | tool/image_compress.cc:69-100 | The first regular file's first segment is in the engine; completions to come are the total number of segments |
| `ImageCompressor.ImageCompress.OnTaskSuccess` | tool/image_compress.cc:106-175 | Each completion accounts for one segment; at the end every regular file has exactly its segments, in order, and their number |
| `ImageCompressor.ImageCompress.SkipOthers` | tool/image_compress.cc:140-145 | Moves to the next regular file and loses none |
| `ImageCompressor.ImageCompress.NextSegment` | tool/image_compress.cc:159-174 | Written, running and remaining segments together stay the file's segments |
| `ImageCompressor.ImageCompress.FinishFile` | tool/image_compress.cc:129-157 | The file's segments and their number are recorded |
| `Pulls.AnsweredOnceTakenInOrder` | src/host/client/offload_client_epoll.cc:181-209 | In every run no pull is answered twice, pulls are taken up in arrival order, and send buffers are exactly free, in flight or lost to a failed load |
| `Pulls.AnsweredWithLastLayer` | src/host/client/offload_client_epoll.cc:106-126 | A reply goes out in the step that unpacks the last layer owed, to the pull of that image, and in no other step |
| `Pulls.QuietMeansAnswered` | src/host/client/offload_client_epoll.cc:67-126 | With nothing under way and no failed load, no pull waits and exactly the pulls of images with layers have been answered |
| `Pulls.EveryMaximalRunAnswers` | src/host/client/offload_client_epoll.cc:67-126 | Internal steps are at most 3 plus, for each pull, 2 and one per layer; a run that cannot go on, with no failed load, has answered exactly the pulls of images with layers |
| `Pulls.NeverStuckIffAllLoad` | src/host/client/offload_client_epoll.cc:194-218 | Waiting pulls always have an answer under way if and only if every image pulled has metadata that loads |
| `Pulls.LeakAll` | src/host/client/offload_client_epoll.cc:198-218 | Pulling an image that does not load, often enough, strands a pull with nothing in flight |
| `Pulls.PullSafeIffFresh` | src/host/client/offload_client_epoll.cc:106-120 | From every state with loadable pulls, pulling an image with layers leads to no failure in any run if and only if the image is not in flight |
| `Pulls.DoomedFails` | src/host/client/offload_client_epoll.cc:236-236 | From every state in which an image has twice its layers coming, a run ends in the failed assertion |
| `Pulls.StepKeeps` | src/host/client/offload_client_epoll.cc:67-254 | Every step keeps credits, window, order, ledger and progress |
| `Pulls.TryKeeps` | src/host/client/offload_client_epoll.cc:194-209 | After an attempt to offload, waiting pulls imply something in flight |
| `Pulls.RunKeeps` | src/host/client/offload_client_epoll.cc:67-254 | The invariant holds after every run |
| `OffloadClients.OffloadClient.OnConnectedCallback` | src/host/client/offload_client_epoll.cc:44-65 | The connection request takes the first free buffer |
| `OffloadClients.OffloadClient.TryOffloadTask` | src/host/client/offload_client_epoll.cc:194-254 | At most one pull goes out, the oldest; failure exactly when a buffer is lost |
| `OffloadClients.OffloadClient.OffloadTask` | src/host/client/offload_client_epoll.cc:181-192 | The pull is recorded with its image and connection, queued, and tried if connected |
| `OffloadClients.OffloadClient.OnRecvSuccess` | src/host/client/offload_client_epoll.cc:67-104 | The oldest buffer in flight is released and the next pull tried |
| `OffloadClients.OffloadClient.CompleteTask` | src/host/client/offload_client_epoll.cc:106-126 | Replies exactly when one layer was left, to the pull recorded with the task |
| `Rdma.CallbacksReadWhatWasSent` | src/network/rdma/RdmaConnection.cc:438-470 | With at least as many buffers at the server, every message finds a posted slot and every callback at both ends reads what was sent, in order |
| `Rdma.AllPostedIsRead` | src/network/rdma/RdmaConnection.cc:438-470 | In every run the callbacks at each end read, in order, a prefix of the messages the run posted at the other, and all of them once nothing is under way |
| `Rdma.SafeIffServerHasEnough` | src/dpu/content_fetcher.cc:139-172 | No run fails if and only if the server has at least as many buffers as the client |
| `Rdma.FewerServerBuffersFail` | src/network/rdma/RdmaConnection.h:225-261 | With fewer there is a run in which a request finds no slot |
| `Rdma.ReplyOverwritesNothing` | src/host/server/content_server.cc:133-151 | The buffer of a new answer is not the buffer of any answer still to leave |
| `Rdma.AnswerLandsSafely` | src/network/rdma/RdmaConnection.cc:438-470 | An arriving answer finds a slot, and not the one a callback is reading |
| `Rdma.StepKeeps` | src/network/rdma/RdmaConnection.h:113-126 | Every step keeps the split of buffers and slots at both ends |
| `RdmaConnections.RdmaConnection.constructor` | src/network/rdma/RdmaConnection.cc:231-262 | All send buffers free in order, nothing posted |
| `RdmaConnections.RdmaConnection.FillRq` | src/network/rdma/RdmaConnection.h:253-261 | The receive slots posted in order, all of them or as many as the adapter accepts; the result says which |
| `RdmaConnections.RdmaConnection.PostRecv` | src/network/rdma/RdmaConnection.h:225-251 | The slot joins the receive queue |
| `RdmaConnections.RdmaConnection.AcquireFreeSendBuf` | src/network/rdma/RdmaConnection.h:113-122 | The buffer that has been free longest, or nothing exactly when none is free |
| `RdmaConnections.RdmaConnection.ReleaseSendBuf` | src/network/rdma/RdmaConnection.h:124-126 | The buffer joins the end of the free list |
| `RdmaConnections.RdmaConnection.Send` | src/network/rdma/RdmaConnection.cc:362-388 | The message is in its buffer and posted last |
| `RdmaConnections.RdmaConnection.NextCompletion` | src/network/rdma/RdmaConnection.cc:438-470 | The slot of the oldest completion is posted again and its contents handed to the callback |
| `Carving.TilesIffLengthFits` | src/network/rdma/RdmaConnection.cc:245-255 | The same if-and-only-if for every sequence of pairs one stride apart |
| `Carving.RegionsAligned` | src/network/rdma/RdmaConnection.cc:38-48 | Every region of a right cut starts on a page |
| `Carving.LastAddressMissed` | src/network/rdma/RdmaConnection.cc:245-255 | Otherwise the last address is in no region |
| `Carving.Carve` | src/network/rdma/RdmaConnection.cc:245-262 | The pairs handed out, measured by their own addresses and capacities, lie inside the allocation and cover each address exactly once, if and only if a buffer is below 2^31 bytes, or below 2^32 with one pair; all are free |
| `Handshake.ConnectedMeansPeerReady` | src/network/rdma/RdmaConnector.cc:54-87 | For every cut of both streams the byte assertion holds, and a fired connected callback means that both queue pairs are bound to each other with all receives posted and callbacks installed |
| `Handshake.EveryMaximalRunConnects` | src/network/rdma/RdmaConnector.cc:54-87 | A run has at most 90 steps, and one that cannot go on has connected both sides exactly once |
| `Handshake.ConnectedBeforeTcpEnds` | src/network/rdma/RdmaServer.cc:43-69 | The callback fires at most once, and before the end of the TCP stream is seen |
| `Handshake.MessageKeeps` | src/network/rdma/RdmaConnector.cc:54-87 | A chunk of any size keeps a side's stream invariant and its output is what its new state says it has sent |
| `Handshake.MoveKeeps` | src/network/rdma/RdmaConnector.cc:20-87 | Every step of either side keeps the invariant of both |
| `RdmaConnectors.RdmaConnector.InitialRdmaResource` | src/network/rdma/RdmaConnector.cc:20-38 | The description is sent and the side waits for the other's |
| `RdmaConnectors.RdmaConnector.ConnectQp` | src/network/rdma/RdmaConnection.cc:299-361 | Succeeds exactly when neither state change nor any receive is refused; then bound to the other side's description with every receive posted in order, otherwise bound to nothing |
| `RdmaConnectors.RdmaConnector.OnTcpMessage` | src/network/rdma/RdmaConnector.cc:54-87 | Both halves of the handshake run on whatever the buffer holds, consume exactly their bytes, and fail no assertion where `Handshake.OnMessage` does not; if connectQp fails the TCP connection is shut, nothing is sent and the callback does not fire |
| `Timers.IndexesAlwaysAgree` | src/network/TimerQueue.cc:110-213 | In every run with callbacks that add and cancel: no assertion fails, nothing is freed twice, both indexes describe the same timers, every timer is in one place, one-shot timers run at most once |
| `Timers.AlarmAlwaysArmed` | src/network/TimerQueue.cc:101-108 | Between batches the alarm is set by the time of every timer or within 100 microseconds of being set |
| `Timers.BatchSurvives` | src/network/TimerQueue.cc:127-143 | No timer of the running batch is freed or changed before the batch ends |
| `Timers.BatchIsDue` | src/network/TimerQueue.cc:145-163 | The batch is exactly the timers whose expiration is not later than now |
| `Timers.CancelHitsOnlyItsTimer` | src/network/TimerQueue.cc:110-125 | An id removes its own timer or nothing; a stale id leaves alone what reuses its address |
| `Timers.CancelledNeverReturns` | src/network/TimerQueue.cc:165-178 | A timer cancelled while scheduled or in its batch is never scheduled again and is freed when the batch ends |
| `Timers.CancelTakesEffectIffInserted` | src/network/TimerQueue.cc:90-125 | A live timer's cancellation takes effect exactly when its insertion has run |
| `Timers.StepKeeps` | src/network/TimerQueue.cc:101-213 | Every step keeps the invariant and fails no assertion |
| `Timers.StepOnce` | src/network/TimerQueue.cc:127-187 | Every step keeps that one-shot timers run at most once |
| `Timers.RearmCovers` | src/network/TimerQueue.cc:180-187 | At the end of a batch the alarm covers every timer |
| `TimerSemantics.DueTimersRun` | src/network/TimerQueue.cc:127-143 | Whatever callbacks do meanwhile: when a batch ends, exactly the timers with expiration at or before its time have run since it began, in order of expiration, each once |
| `TimerSemantics.RepeatsOnTime` | src/network/TimerQueue.cc:165-178 | At the end of a batch a timer is scheduled for exactly one interval after the batch's time if it repeats and was not cancelled, and freed otherwise |
| `TimerSemantics.NeverEarly` | src/network/TimerQueue.cc:90-99 | In every run a timer that is about to run for the first time does so in a batch whose time is not before the time it was added for |
| `TimerSemantics.AddedAsGiven` | src/network/TimerQueue.cc:90-95 | addTimer makes a timer with the time and interval given and a number no live timer has, and changes no other |
| `TimerSemantics.InsertedIsScheduled` | src/network/TimerQueue.cc:101-108 | Insertion schedules the timer for its time; the alarm is set for it, at least 100 microseconds ahead, if it is earliest, and otherwise stays |
| `TimerSemantics.RearmExact` | src/network/TimerQueue.cc:180-187 | At the end of a batch the alarm is the earliest expiration, but at least 100 microseconds ahead |
| `Timers.HowMuchTimeFromNow` | src/network/TimerQueue.cc:26-38 | Seconds and nanoseconds add up to the time left, or 100 microseconds if that is less, with nanoseconds below a second; the alarm goes off after exactly that |
| `TimerQueues.TimerQueue.NewTimer` | src/network/TimerQueue.cc:90-95 | A timer with a fresh sequence number waits for insertion |
| `TimerQueues.TimerQueue.InsertTimer` | src/network/TimerQueue.cc:189-213 | Both indexes gain the timer; the flag says whether it is earliest |
| `TimerQueues.TimerQueue.AddTimerInLoop` | src/network/TimerQueue.cc:101-108 | The timer is in both indexes and the alarm is reset exactly if it is earliest; the invariant of `Timers.IndexesAlwaysAgree` is kept |
| `TimerQueues.TimerQueue.Cancel` | src/network/TimerQueue.cc:110-125 | A scheduled timer leaves both indexes and is freed, one in the running batch is marked, any other id changes nothing; the invariant is kept |
| `TimerQueues.TimerQueue.TakeExpired` | src/network/TimerQueue.cc:147-152 | Takes exactly the entries below the sentry, sorted |
| `TimerQueues.TimerQueue.GetExpired` | src/network/TimerQueue.cc:145-163 | Both indexes lose the timers that are due |
| `TimerQueues.TimerQueue.HandleReadBegin` | src/network/TimerQueue.cc:127-136 | The batch is exactly the expired timers in order, out of both indexes; the invariant is kept |
| `TimerQueues.TimerQueue.RunCallback` | src/network/TimerQueue.cc:137-139 | The next timer of the batch runs; the step counted by `TimerSemantics.DueTimersRun` |
| `TimerQueues.TimerQueue.ResetLoop` | src/network/TimerQueue.cc:168-178 | Every timer of the batch is restarted or freed |
| `TimerQueues.TimerQueue.HandleReadEnd` | src/network/TimerQueue.cc:140-187 | Each timer of the batch is restarted or freed and the alarm covers the earliest; the invariant is kept |
| `EventLoops.EachRunsOnceInOrder` | src/network/EventLoop.cc:127-136 | Under every interleaving the functors run are a prefix of those queued, each once and in order |
| `EventLoops.NeverMissed` | src/network/EventLoop.cc:77-104 | The loop never sleeps on queued work or a quit unless a wakeup is recorded or about to be |
| `EventLoops.AsleepMeansAllRan` | src/network/EventLoop.cc:201-221 | A sleeping loop has run everything ever queued |
| `EventLoops.AsleepHasRunThem` | src/network/EventLoop.cc:127-136 | A sleeping loop has run exactly the functors that the run queued, from whatever thread, in the order of the calls |
| `EventLoops.EntrySafeIff` | src/network/EventLoop.cc:77-104 | From entry into the loop nothing is missed in any run if and only if nothing is queued or a wakeup is on record |
| `EventLoops.SilentEntry` | src/network/EventLoop.cc:127-136 | Entering with unannounced work puts the loop to sleep on it |
| `EventLoops.QuitForgotten` | src/network/EventLoop.cc:77-118 | A run in which a quit is lost at the head of the loop and the loop sleeps |
| `EventLoops.QuitKeptIff` | src/network/EventLoop.cc:77-118 | Another thread's quit stays set until the loop is entered again, in every run, if and only if it does not fall between the first two assignments of loop() |
| `EventLoops.QuitEndsLoopIff` | src/network/EventLoop.cc:83-83 | Another thread's quit makes the next test leave the loop, whatever happens first, under the same condition |
| `EventLoops.OwnQuitKept` | src/network/EventLoop.cc:106-118 | A quit on the loop's own thread always stays set |
| `EventLoops.RunByEndOfIteration` | src/network/EventLoop.cc:209-221 | What is queued before a swap has run when that iteration ends, whatever other threads do |
| `EventLoops.StepRecorded` | src/network/EventLoop.cc:127-136 | Every step, except queueing on the loop's thread outside the loop, keeps a wakeup on record for waiting work |
| `EventLoopObjects.EventLoop.Enqueue` | src/network/EventLoop.cc:127-136 | The functor joins the queue; the flag says whether a wakeup is owed |
| `EventLoopObjects.EventLoop.Wakeup` | src/network/EventLoop.cc:193-199 | The eventfd is readable, whatever its count was |
| `EventLoopObjects.EventLoop.QueueInLoop` | src/network/EventLoop.cc:127-136 | An uninterrupted call leaves a wakeup on record unless made on the loop's thread outside the loop |
| `EventLoopObjects.EventLoop.Quit` | src/network/EventLoop.cc:106-118 | No effect before the loop; otherwise quit is set, and a wakeup owed if called from another thread |
| `EventLoopObjects.EventLoop.HandleRead` | src/network/EventLoop.cc:201-207 | The eventfd is drained |
| `EventLoopObjects.EventLoop.TakeFunctors` | src/network/EventLoop.cc:209-215 | The queue moves to the batch |
| `EventLoopObjects.EventLoop.RunFunctor` | src/network/EventLoop.cc:217-219 | The first functor of the batch runs |
| `ByteBuffer.Buffer.constructor` | src/network/tcp/Buffer.h:30-36 | Empty, with the requested room and the reserve in front |
| `ByteBuffer.Buffer.Retrieve` | src/network/tcp/Buffer.h:84-91 | Drops the first bytes; an emptied buffer has its reserve back |
| `ByteBuffer.Buffer.RetrieveAsString` | src/network/tcp/Buffer.h:116-121 | What is returned and what is left make up the old contents |
| `ByteBuffer.Buffer.MoveDown` | src/network/tcp/Buffer.h:306-313 | The overlapping move keeps the contents |
| `ByteBuffer.Buffer.MakeSpace` | src/network/tcp/Buffer.h:301-315 | The contents are kept and the room is there, by growth or by the move, whose assertion holds |
| `ByteBuffer.Buffer.EnsureWritableBytes` | src/network/tcp/Buffer.h:139-144 | The room is there, the contents are kept |
| `ByteBuffer.Buffer.Append` | src/network/tcp/Buffer.h:129-133 | The contents grow by the data at the end |
| `ByteBuffer.Buffer.Unwrite` | src/network/tcp/Buffer.h:155-158 | The last bytes are dropped |
| `ByteBuffer.Buffer.Prepend` | src/network/tcp/Buffer.h:273-278 | The contents grow by the data in front |
| `ByteBuffer.Buffer.Shrink` | src/network/tcp/Buffer.h:280-286 | Same contents, in a new vector with the room asked for |
| `ByteBuffer.Buffer.ReadFd` | src/network/tcp/Buffer.cc:15-37 | Equals one append of what was read, however it was split; an error changes nothing |
| `ByteBuffer.Buffer.AppendInt` | src/network/tcp/Buffer.h:163-181 | Appends the integer in network order |
| `ByteBuffer.Buffer.PrependInt` | src/network/tcp/Buffer.h:253-271 | Puts the integer in network order in front |
| `ByteBuffer.Buffer.PeekInt` | src/network/tcp/Buffer.h:219-248 | The one integer whose encoding is at the front |
| `ByteBuffer.Buffer.ReadInt` | src/network/tcp/Buffer.h:187-213 | The old contents are the encoding of the result, then the new contents |
| `Endian.IntRoundTrip` | src/network/tcp/Buffer.h:163-248 | Reading back a written integer gives it again, for every width and sign |
| `Endian.BytesRoundTrip` | src/network/tcp/Buffer.h:219-248 | Every byte pattern is the encoding of the integer read from it |
| `Endian.BigDigits` | src/network/tcp/Buffer.h:163-181 | Network order: the byte at i counts 256^(w-1-i) |
| `Endian.LittleDigits` | src/utils/MsgFrame.h:88-100 | Host order of the RDMA length: the byte at i counts 256^i |
| `TcpStreams.StreamIsConserved` | src/network/tcp/TcpConnection.cc:99-160 | In every run, with every pattern of writes: without a fatal error wire and buffer are what was accepted; write interest is on exactly when something is buffered; a shut write side has written everything as long as the connection is not closed |
| `TcpStreams.AllSentIsAccepted` | src/network/tcp/TcpConnection.cc:64-107 | In every run, every byte sent on the loop's thread while connected and every message handed over and taken up is accepted, in the order of these steps, or dropped if the connection is closed |
| `TcpStreams.HandedIsTakenUp` | src/network/tcp/TcpConnection.cc:64-77 | In every run, calls to send, shutdown and forceClose handed over are taken up in order, and nothing else is |
| `TcpStreams.SentIsOnTheWay` | src/network/tcp/TcpConnection.cc:64-143 | With sends on the loop's thread and no fatal error, wire and buffer are exactly the messages sent while connected, in order, in every run |
| `TcpStreams.CallsTakeEffect` | src/network/tcp/TcpConnection.cc:145-188 | shutdown() stops sending at once and shuts the write side as soon as nothing is buffered; forceClose() closes when taken up |
| `TcpStreams.ShutWhenEmptyIff` | src/network/tcp/TcpConnection.cc:145-160 | The step that shuts the write side leaves nothing unsent if and only if the connection was not closed with something in its buffer |
| `TcpStreams.LateShutdownLeavesBytes` | src/network/tcp/TcpConnection.cc:145-160 | For every message, a run with a healthy kernel that shuts the write side in front of it |
| `TcpStreams.SecureIffNothingQueued` | src/network/tcp/TcpConnection.cc:64-77 | In a connected state, no run with a healthy kernel and sends on the loop's thread gives up or drops a byte, if and only if no message of another thread is in the loop's queue |
| `TcpStreams.QueuedIsLost` | src/network/tcp/TcpConnection.cc:109-131 | On a shut write side the first message in the queue is lost |
| `TcpStreams.RunKeeps` | src/network/tcp/TcpConnection.cc:64-304 | Accepted bytes are on the wire, buffered or given up, in this order, after every run |
| `TcpStreams.LateIsLost` | src/network/tcp/TcpConnection.cc:99-143 | After that nothing reaches the wire |
| `TcpStreams.OneThreadLosesNothing` | src/network/tcp/TcpConnection.cc:64-160 | With a healthy kernel and sends from the loop's thread nothing is given up or dropped in any run |
| `TcpStreams.CallbacksAreTimely` | src/network/tcp/TcpConnection.cc:109-143 | Write-complete is queued only when everything is written, high-water exactly when the buffer crosses the mark |
| `TcpStreams.StepKeeps` | src/network/tcp/TcpConnection.cc:99-304 | Every step keeps the invariant, and the assertion of handleClose holds |
| `TcpConnections.TcpConnection.SendInLoop` | src/network/tcp/TcpConnection.cc:99-143 | What write(2) does not take is appended to the output buffer with write interest on, unless the error is fatal; refines the step of `TcpStreams.StreamIsConserved` |
| `TcpConnections.TcpConnection.Send` | src/network/tcp/TcpConnection.cc:64-77 | While connected the message is accepted at once on the loop's thread, or handed to the loop; otherwise nothing happens |
| `TcpConnections.TcpConnection.ShutdownInLoop` | src/network/tcp/TcpConnection.cc:154-160 | Shut unless writing |
| `TcpConnections.TcpConnection.Shutdown` | src/network/tcp/TcpConnection.cc:145-152 | Disconnecting from connected only; shut at once, after the buffer is drained, or by the loop; refines `TcpStreams.Apply` |
| `TcpConnections.TcpConnection.HandleWrite` | src/network/tcp/TcpConnection.cc:267-290 | What write(2) takes leaves the front of the buffer; an empty buffer switches interest off and completes a pending shutdown; refines `TcpStreams.HandleWrite` |
| `TcpConnections.TcpConnection.HandleClose` | src/network/tcp/TcpConnection.cc:292-304 | Disconnected, all interest off |
| `TcpConnections.TcpConnection.HandleRead` | src/network/tcp/TcpConnection.cc:252-265 | The input grows by what was read; end of stream closes; errors change nothing |
| `Framing.ReadIsPrefix` | src/utils/MsgFrame.h:13-34 | For every cut of the stream the messages read are a prefix of those sent, and buffer and undelivered bytes encode the rest |
| `Framing.AllReadIffPaced` | src/host/client/command_server.cc:40-50 | With the stream delivered, all messages are read if and only if from each moment on there were as many callbacks as messages not yet arrived whole |
| `Framing.AlwaysReadIff` | src/host/client/command_server.cc:40-50 | All messages of a connection are read for every cut of the stream if and only if there is at most one |
| `Framing.OneMessageIsRead` | src/host/client/client_cli.cc:57-57 | A single message is read for every cut |
| `Framing.TwoAtOnce` | src/host/client/command_server.cc:40-50 | Of two messages in one chunk only the first is read |
| `Framing.ReceiveFrame` | src/utils/MsgFrame.h:19-34 | On any part of a stream a frame is received exactly when it is all there |
| `Framing.ReceivedIffSendable` | src/utils/MsgFrame.h:23-25 | A complete frame is received if and only if header and message fit an int |
| `Framing.ReceiveTcpPbMsg` | src/utils/MsgFrame.h:19-34 | The buffer loses exactly the frame received, or nothing |
| `Framing.SerializeRdma` | src/utils/MsgFrame.h:88-100 | The frame is written in place and nothing else; refused exactly when it does not fit |
| `Framing.ParseRdmaFailsIff` | src/utils/MsgFrame.h:69-85 | A received frame is parsed exactly when its length is not negative and it is all there, and reaches protobuf with a negative size exactly for lengths -4..-1 |
| `Framing.RdmaRoundTrip` | src/utils/MsgFrame.h:69-100 | A frame is parsed back whatever follows it, and refused when cut short |
| `Framing.FinishRoundTrip` | src/dpu/decompress_client_epoll.cc:345-362 | Type, message and trailing segment of a finish message are recovered by the host |

## Left out

- DOCA, ibverbs, epoll, timerfd, eventfd and socket calls: foreign interfaces, modelled as steps that may do whatever their documentation allows; DEFLATE (RFC 1951) runs in hardware.
- Protobuf encoding: messages are datatypes or opaque bytes, and parsing back what was serialised succeeds.
- src/image and src/host/client/metadata: wrappers over parsing libraries; only whether an image's metadata loads and how many layers it has is modelled.
- Error paths that only log (serialisation failure, a failed job, a failed completion, `popen` failure): the program abandons the buffer or request. Metadata failure is modelled, and `connectQp` failure on the object (`RdmaConnectors.RdmaConnector.ConnectQp`) but not in the runs of `Handshake`.
- The inline path of `submitDecompressTask` (src/dpu/decompress_client_epoll.cc:306-327): it does not wait for the memory-map handshake; only its framing is modelled (`Framing.FinishRoundTrip`).
- Two images that share a layer, pulled at the same time, in `WholeSystem`: the fetcher would ask for the layer twice and mix its segments; what the untar engine does with them is `UntarTable.KnownIffStarted`.
- Several registries, clients per address and connections per server: one of each is modelled.
- Device setup in `RdmaConnection::create`, `DevContext`, `src/doca/core`, `src/doca/params`: resource acquisition.
- `TcpConnector`, `Acceptor`, `Thread`, `CountDownLatch`, `EventLoopThreadPool`, `InetAddress`, `Poller`, `Channel`: system calls or easy facts.
- `BlobPool`, `findCRLF`, `findEOL`, the type-prefixed TCP frame (no caller): they would only add easy members.
- ByteBuffer.Buffer: sizes are unbounded, so overflow of `size_t` is not modelled.
- Timers.Rearm: the clock is a parameter of each arming, and expirations are unbounded integers.
- Untar.Give: the exit status of `tar` is a parameter, and bytes are written to `tar` in one step per segment.
- Statistics, logging, command-line flags, scripts.
