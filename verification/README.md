# Verified model of the Waterproof wrapper

The wrapper is a multi-threaded message router. A TCP server reads requests from Waterproof clients and
writes responses to them; a conductor keeps one worker per instance, and each worker talks to one sertop
process over pipes. Requests and responses cross threads through an in queue, an out queue, a priority queue
and one message queue per worker. This project models those parts and proves what they promise in every run,
for every interleaving of the threads and every division of the byte streams.

| file | content |
|---|---|
| `messages.dfy` | requests, responses, the order of responses |
| `buffers.dfy` | the 32-bit codec over signed chars, in place on an array |
| `sequences.dfy`, `splitting.dfy` | what splitting a stream at NUL means |
| `worker.dfy` | class `Worker`: parser, read loop, message queue, write loop |
| `framing.dfy` | length-prefixed frames; class `Connection` with the read and write loops of the server |
| `wire.dfy` | what reaches a client, and what it decodes, when writes may fail at any byte |
| `pipeline.dfy` | a response's way from the conductor's counter to the server's writer |
| `server.dfy`, `conductor.dfy` | classes `Server` and `Conductor`: each critical section as a method, proved against a function on the state, and the loops around them, with the other threads in between |
| `router.dfy` | the whole router as a machine whose steps are the critical sections, built from the same functions |
| `invariants.dfy`, `streams.dfy`, `routing.dfy` | what every step keeps |
| `runs.dfy` | runs, and the invariant of every state they reach |
| `facts.dfy` | what is the case after a run, told by the steps that began it or ended it: live workers, mappings, closed sockets |
| `causes.dfy` | what the clients sent and what arrives of it; what every response says |
| `theorems.dfy` | what holds in every run: order, accounting, instances, routing |
| `turns.dfy` | one turn of the conductor inside a run |
| `delivery.dfy` | from sertop's output to what the client decodes, and from requests to sertop's input |
| `examples.dfy` | runs that reach the failures |
| `handoff.dfy` | the accept thread and the read thread as a machine of their own |

Assumptions, beyond those under "Left out":

- Sockets are unique positive tokens; a descriptor is not reused. 0 is the socket `client_map_[id]` inserts on a
  miss. Sending to a socket that `invalidate` closed fails at once.
- In `Router` the pop of a response and the lookup of its socket are one step (the code reads `client_map_` there
  without `clients_mutex_`). The write is a later step of its own: any other thread may act between the two.
- In `Router` one call of `write` is one step; it reaches the end of the frame or fails after any number of its bytes.
  Reading a request and mapping it are one step.
- `send`, `recv`, `read` and `write` return an error or a positive number no larger than what was asked;
  `recv` returns 0 only at the end of the stream. A `Connection` marked `reliable` has no errors.
- The JSON library is a parameter: a function from payloads to requests in `Framing.Connection.Read`; in `Router`
  each write carries the payload that was dumped, and `Delivery.EndToEnd` assumes of the payloads actually sent to
  the client that they load to the fields that `to_json` puts in (not the id, not the priority).
- In `Router` a worker's threads may go on printing, calling back, failing and writing after the worker was
  removed, and `invalidate` may make the conductor remove any worker at any time. The code does less than
  that, so what is proved of all runs of the model holds of its runs.
- Counters do not wrap: fewer than 2^64 responses, fewer than 2^31 instances.

Properties that the code does not have, each with its exact condition and a case where it fails:

- "After an instance is unmapped its creator hears nothing more of it": the writer may have popped a response
  before. True exactly if it holds none for the creator, or the creator's socket is closed, or the program is dead
  (`Theorems.SilentExactly`; `Examples.ResponseAfterUnmapExample`).
- "The client's reader stays in step": `unmap` swallows the error of a failed write and leaves the socket open.
  True exactly if no byte follows a failed write (`Wire.InStepExactly`), which holds in every run for a client that
  `unmap` writes nothing to (`Delivery.FailuresEndWrites`). Otherwise the client may decode what was never sent
  (`Examples.OutOfStepExample`), and the end-to-end claim is false (`Examples.EndToEndFailsExample`).
- "A forward reaches its worker": without a live worker it dereferences null, and the model stops there (phase
  `Crashed`). It happens exactly if no worker was built for the instance or a later step removed it
  (`Facts.ForwardCrashesExactly`; `Examples.DeadForwardExample`).
- "The invalidate callback is given the id of the invalid worker" (`server.h`): the key is read after the iterator
  moved on, so it is a later key, and past the end exactly if the greatest key pointed at the client
  (`Servers.CallbackPastTheEnd`; `Servers.InvalidateExamples`).
- "Payloads come back unchanged": the length is a `uint32_t` but the loops count in `int`. True exactly below 2^31
  bytes (`Framing.RoundTrip`); reader and writer stay in step all the same (`Framing.ReadsFollowWrites`).
- "The poll array has a slot for every client": true exactly up to 255 clients (`HandOff.SlotsSuffice`;
  `HandOff.OverrunExample`).

## Model

| member | source | states |
|---|---|---|
| Messages.LessIsStrictWeakOrder | src/waterproof/message.cpp:21-40 | smaller means a lower priority, or the same and a higher id; this is a strict weak order; ties are exactly equal priority and id; `>` is the converse of `<` |
| Messages.TopExists | src/waterproof/server.cpp:488-489 | every non-empty queue has a largest response to pop |
| Messages.TopIsDetermined | src/waterproof/server.cpp:488-489 | with distinct ids the popped response depends only on what is in the queue, not on how it is arranged, and beats all others |
| Buffers.ToUint8 | src/utils/buffers.cpp:35-38 | the cast to `uint8_t`: between 0 and 255 and equal to the char modulo 256 |
| Buffers.ToChar | src/utils/buffers.cpp:57-60 | the narrowing to `char`: equal to the value modulo 256 |
| Buffers.ToInt32 | src/waterproof/server.cpp:153 | the conversion of the length to `int`: between -2^31 and 2^31 - 1 and equal to it modulo 2^32 |
| Buffers.DecodeIs | src/utils/buffers.cpp:28-50 | the value read, by arithmetic on the chars as they are: each counts modulo 256, times 2^24, 2^16, 2^8 and 1, in the order of the endianness |
| Buffers.EncodeIs | src/utils/buffers.cpp:52-70 | the chars written stand for the value by the same arithmetic |
| Buffers.ReadAfterWrite | src/utils/buffers.cpp:28-70 | reading what was written gives the value back, through signed chars, in both endiannesses |
| Buffers.WriteAfterRead | src/utils/buffers.cpp:28-70 | writing back what was read restores any four cells |
| Buffers.EndiannessIsReversal | src/utils/buffers.cpp:32-47 | reading big-endian is reading the reversed cells little-endian |
| Buffers.BigEndianIsLexicographic | src/utils/buffers.cpp:34-38 | the first cell is the most significant: values compare as their cells do, first difference first |
| Buffers.ReadUint32 | src/utils/buffers.cpp:28-50 | the value of the four cells at the offset, in either endianness |
| Buffers.WriteUint32 | src/utils/buffers.cpp:52-70 | the four cells hold the value and no other cell changes |
| Splitting.SplitIsUnique | src/sertop/worker.h:103-115 | a stream is terminated messages followed by an unterminated rest in at most one way |
| Splitting.SplitIs | src/sertop/worker.h:103-115 | the split used by the model is the one whose messages, each followed by NUL, and rest rebuild the stream |
| Splitting.MessagesEndAtZero | src/sertop/worker.cpp:36-56 | there is one message for each character 0 in the stream, and no 0 in any message or in the rest |
| Splitting.SplitContinues | src/sertop/worker.cpp:32-77 | parsing a chunk with the previous remainder as prefix continues the split of the whole stream |
| Splitting.ChunkingDoesNotMatter | src/sertop/worker_posix.cpp:303-317 | however the stream is cut into reads, the messages delivered and the remainder are those of a one-shot split, empty messages included |
| Workers.Worker.Parse | src/sertop/worker.cpp:32-77 | calls back with exactly the complete messages of prefix and chunk, in order, and returns the rest |
| Workers.EventIs | src/sertop/worker_posix.cpp:282-322 | which results of `poll` and `read` end the loop, which of them as a failure, and which bytes they bring, case by case |
| Workers.Worker.HandleEvent | src/sertop/worker_posix.cpp:280-324 | one pass: continues unless interrupted or failed; delivers the messages that the bytes read complete; fails at most once |
| Workers.Worker.ReadLoop | src/sertop/worker_posix.cpp:261-327 | over any events, delivers the split of all bytes read before the loop ends, and fails once exactly if the loop ended by an error |
| Workers.Worker.Write | src/sertop/worker_posix.cpp:240-259 | puts a prefix of the message on stdin, all of it exactly if no write failed, while others may enqueue |
| Workers.Worker.WriteTurn | src/sertop/worker.cpp:83-131 | one turn takes the oldest message, writes it, and fails on a partial write |
| Workers.Worker.WriteLoop | src/sertop/worker.cpp:79-134 | enqueued = taken + queued and stdin is what was taken minus an unwritten end of the last message, under any interleaving; no turn is idle while a message waits |
| Framing.FrameHeaderIs | src/waterproof/server.cpp:197-199 | a frame begins with four chars that stand for the payload's length modulo 2^32 |
| Framing.FrameBodyIs | src/waterproof/server.cpp:220-236 | then comes the payload if it is below 2^31 bytes; at or above, as much as the length modulo 2^32 says if that is below 2^31, else nothing |
| Framing.NextFrameIs | src/waterproof/server.cpp:146-175 | the first four chars of the stream say how many chars of it are the payload; from 2^31 on, none |
| Framing.FrameStaysInStep | src/waterproof/server.cpp:184-239 | a frame followed by anything is read as exactly that frame, leaving what follows, whatever the payload length |
| Framing.ReadsFollowWrites | src/waterproof/server.cpp:109-239 | repeated reads of repeated writes consume every frame exactly and return the bodies sent |
| Framing.RoundTrip | src/waterproof/server.cpp:109-239 | the payload list comes back unchanged if and only if every payload is shorter than 2^31 bytes |
| Framing.CutStreamYieldsPrefix | src/waterproof/server.cpp:121-182 | a stream cut off anywhere yields whole bodies only, in order from the first, whatever the payload lengths |
| Framing.Connection.ReadLength | src/waterproof/server.cpp:121-147 | whatever the sizes of the receives, the length is that of the next four bytes, and just those are taken |
| Framing.Connection.ReadPayload | src/waterproof/server.cpp:151-175 | the payload is exactly the announced bytes in order, or there is none |
| Framing.Connection.Read | src/waterproof/server.cpp:109-182 | takes exactly one frame and reports the request it parses to, or that it does not parse; or yields no request: closed at the end of the stream or on a reset, failed on any other error; without I/O errors it yields one exactly if the stream holds a frame |
| Framing.Connection.SendHeader | src/waterproof/server.cpp:203-218 | sends the four bytes, or a prefix on an error |
| Framing.Connection.SendBody | src/waterproof/server.cpp:220-236 | sends the body, or a prefix on an error |
| Framing.Connection.Write | src/waterproof/server.cpp:184-239 | sends exactly one frame for any sizes of the sends; an error leaves a proper prefix of it |
| Framing.Transmit | src/waterproof/server.cpp:109-239 | any list of payloads sent by repeated write loops and taken by repeated read loops comes back body by body and then the end of the stream, for any sizes of sends and receives; unchanged if below 2^31 bytes |
| Wire.InStepExactly | src/waterproof/server.cpp:184-239 | every write finds the client's reader where complete frames would have brought it if and only if no byte follows a failed write |
| Wire.ClientDecodes | src/waterproof/server.cpp:184-239 | if no byte follows a failed write, then from the bytes that arrived, cut anywhere, the bodies of the first writes can be decoded, all of them whole |
| Wire.OutOfStep | src/waterproof/server.cpp:41-45 | after a frame that broke off in its body, the client makes one wrong payload of what is left of it and the next frame |
| Pipeline.EmitKeepsAccounts | src/conductor.cpp:235-246 | a new response takes the next id and is queued behind older ones |
| Pipeline.HandOverKeepsAccounts | src/conductor.cpp:138-142 | a hand-over moves one response and keeps both queues in order of id |
| Pipeline.PopKeepsAccounts | src/waterproof/server.cpp:488-489 | a pop moves one response and loses none |
| Pipeline.ExactlyOnce | src/conductor.cpp:235-246 | each id given out is held by exactly one response in exactly one place |
| Pipeline.TopIsOldestOfItsKind | src/waterproof/message.cpp:21-35 | no response of the same priority as the top was handed over before it and is still queued |
| Pipeline.PopKeepsFifo | src/waterproof/server.cpp:488-489 | a pop keeps the order of hand-over among selected responses of one priority |
| Pipeline.PopKeepsCreateFirst | src/waterproof/message.cpp:21-35 | a pop never overtakes the create response of its instance |
| Servers.RemoveFirstRemovesOne | src/waterproof/server.cpp:77-82 | the first occurrence of the socket goes, the order of the rest stays |
| Servers.RemoveFirstRemovesNone | src/waterproof/server.cpp:79 | a socket that is not listed leaves the list as it is |
| Servers.Server.Unmap | src/waterproof/server.cpp:32-49 | the final response is written to the mapped socket, as far as the write gets, past the queue; the instance is forgotten either way |
| Servers.Server.Invalidate | src/waterproof/server.cpp:71-107 | erasing while iterating terminates and keeps exactly the entries of other sockets, with their values; each removed entry is reported once, in key order, with the key of its successor; the socket is closed |
| Servers.CallbackPastTheEnd | src/waterproof/server.cpp:85-97 | a callback reads past the end if and only if the greatest key pointed at the client; otherwise it is given a later key still in the map, never the removed one |
| Servers.ReportIsDetermined | src/waterproof/server.cpp:85-97 | the callbacks are determined by the map and the client |
| Servers.InvalidateExamples | src/waterproof/server.cpp:85-97 | one input for each of the two cases |
| Servers.Server.MapRequest | src/waterproof/server.cpp:430-439 | verb and content pass unchanged; a create request gets the lowest free id, mapped to its sender, beside the other entries; other requests change nothing |
| Servers.Server.PopResponse | src/waterproof/server.cpp:488-490 | takes a response that none exceeds: the others have a lower priority, or the same and no lower id; looks its socket up, inserting socket 0 on a miss |
| Servers.Server.WriteResponse | src/waterproof/server.cpp:494-502 | the write of the response held; a failed write, and only that, invalidates the socket |
| Servers.Server.WriteTurn | src/waterproof/server.cpp:472-502 | the response popped is written to the socket found at the pop, whatever the other threads do in between; if the write fails, nothing is mapped to that socket afterwards; no old mapping moves |
| Conductors.BatchMeaning | src/conductor.cpp:164-219 | a batch adds one create response per create request, in order, uses one id per create or destroy, and signals exactly if it holds a stop |
| Conductors.Conductor.HandleResponse | src/conductor.cpp:150-162 | a worker's message becomes the youngest queued response: forward, success, priority 0 |
| Conductors.Conductor.HandleWorkerFailure | src/conductor.cpp:221-233 | removes the worker and queues a response: destroy, failure, priority 1, the error's text |
| Conductors.BatchFeeds | src/conductor.cpp:211-213 | a worker that no request of a batch destroys is given exactly the batch's forwards for it, in order |
| Conductors.Conductor.HandleRequest | src/conductor.cpp:164-219 | new state of conductor, server and every worker's input for each verb, with every field of the response to a create or destroy request; dies exactly on a forward without a worker |
| Conductors.Conductor.HandleBatch | src/conductor.cpp:125-130 | every request of the batch is handled in order, also after a stop, while the server's threads go on: final responses in order, destroyed instances mapped to no client, no old mapping moved |
| Conductors.Conductor.HandOverAll | src/conductor.cpp:138-142 | the out queue ends empty, handed to the server in order, while the writer takes responses out again |
| Conductors.Conductor.RunTurn | src/conductor.cpp:104-148 | whatever the server's threads do meanwhile, a turn without stop leaves both queues empty and hands everything over in order; a turn with a stop handles its batch and hands over nothing |
| Router.StepActs | src/conductor.cpp:100-162 | every critical section of the program does at most one thing to the response pipeline |
| Invariants.StepKeepsQueues | src/waterproof/server.cpp:472-490 | every step keeps accounting, order per priority and create-first |
| Invariants.StepKeepsRequests | src/conductor.cpp:47-54 | every step keeps: received = handled + in queue, and create requests carry 0, 1, 2, ... in order of arrival |
| Invariants.HandledCreatesAreNumbered | src/waterproof/server.cpp:431-436 | a create request about to be handled names an id no handled one had |
| Invariants.StepKeepsLives | src/conductor.cpp:168-199 | every step keeps: one create response per handled create, success exactly if a worker was built, and no other response without a worker |
| Streams.StepKeepsOutput | src/sertop/worker_posix.cpp:303-317 | every step keeps: the split of what sertop printed is what was queued plus what awaits its callback |
| Streams.StepKeepsInput | src/sertop/worker.cpp:108-123 | every step keeps: written + being written + queued = the forwarded requests, byte for byte |
| Routing.StepKeepsRoutes | src/waterproof/server.cpp:431-439 | every step keeps: map entries are numbered instances pointing at their creator or at 0, and nothing was written elsewhere |
| Routing.MappingNeverReturns | src/waterproof/server.cpp:84-103 | no step maps an instance to its creator again |
| Routing.StepKeepsDirects | src/conductor.cpp:200-210 | every step keeps: one final response past the queues for each destroy request handled, in order, success without content |
| Routing.StepKeepsClients | src/waterproof/server.cpp:77-82 | every step keeps: the list of clients is the accepted ones that were not invalidated, in order of acceptance |
| Routing.StepKeepsReceived | src/waterproof/server.cpp:488-496 | every step keeps: the creator got the first of the popped responses, of whatever kind; while it is mapped and no write to it just failed, all but the one in the writer's hand |
| Routing.StepKeepsWrittenOnce | src/waterproof/server.cpp:488-496 | every step keeps: what was written or is in the writer's hand was popped or sent directly once for each time |
| Routing.StepKeepsFailures | src/waterproof/server.cpp:494-502 | every step keeps: bytes follow a failed write to the same socket only where `unmap` made one of the two writes |
| Theorems.CreateComesFirst | src/conductor.cpp:168-199 | in every run, no response of a worker is popped before the successful create response of its instance |
| Theorems.WriterKeepsOrder | src/waterproof/server.cpp:472-490 | in every run, per priority, the popped responses are a prefix of those handed over |
| Theorems.WriterTakesLargest | src/waterproof/server.cpp:488-489 | in every run, every response that the writer leaves has a lower priority than the one it takes, or the same and a higher id |
| Theorems.ExactlyOnePlace | src/conductor.cpp:235-246 | in every run, the ids below the counter are partitioned among the out queue, the server's queue, the popped and the unmapped, and no other id is anywhere; the server's queue is older than the out queue |
| Theorems.WrittenAtMostOnce | src/waterproof/server.cpp:488-496 | in every run, no response is written twice |
| Causes.RequestsArrive | src/waterproof/server.cpp:428-444 | in every run, the requests that reach the conductor are those the clients sent, in order, verb and content unchanged, and the instance too but for creates, which are numbered 0, 1, 2, ...; the i-th create's sender is the creator of instance i |
| Theorems.NoRequestLost | src/conductor.cpp:47-54 | in every run, the requests received are those handled, in order, then those waiting |
| Turns.BatchIsHandled | src/conductor.cpp:125-130 | inside any run, a turn handles exactly the requests that waited when it began, in order, adds one reply per create, and hands nothing over yet, whatever steps other threads take |
| Turns.TurnsLeaveNothing | src/conductor.cpp:104-148 | inside any run, a turn without stop or signal hands over exactly the out queue and its replies, in order, and leaves both queues empty; with one it hands nothing over and the conductor stops |
| Theorems.StopEndsHandOvers | src/conductor.cpp:132-136 | in every run, once a stop was handled nothing is handed to the server |
| Theorems.SignalsEndTurns | src/conductor.cpp:104-123 | in every run, after a signal or a failure of the server no turn begins: no request is handled and nothing handed over any more |
| Theorems.OneWorkerPerInstance | src/conductor.cpp:181-186 | in every run, no instance gets a second worker |
| Theorems.OneReplyPerCreate | src/conductor.cpp:168-199 | in every run, one create response per handled create, in order, success exactly if a worker was built |
| Causes.ResponsesSay | src/conductor.cpp:150-246 | in every run, one response is queued for each create handled, each message delivered and each worker failure, in the order in which these happened, and its verb, status, priority, instance and content say what happened: the text of the error, the message, or nothing |
| Causes.FinalsSay | src/conductor.cpp:200-210 | in every run, one response goes past the queues for each destroy handled, in order: destroy, success, priority 1, that instance, no content |
| Facts.CrashesOnlyOnDeadForward | src/conductor.cpp:211-213 | the null dereference happens if and only if a forward without a live worker is handled |
| Facts.LiveWorkers | src/conductor.cpp:181-186 | in every run, an instance has a live worker if and only if some step built one and no later destroy, failure or invalidation removed it |
| Facts.Mappings | src/waterproof/server.cpp:84-103 | in every run, an instance is mapped to a client if and only if that client's create request was read and numbered so, and no later step destroyed the instance or invalidated the client |
| Facts.OpenClients | src/waterproof/server.cpp:77-82 | in every run, the list of clients is the accepted ones in order, but for those some step invalidated |
| Facts.ForwardCrashesExactly | src/conductor.cpp:211-213 | in every run, a handled forward kills the program if and only if no worker was built for its instance or a later step removed it |
| Examples.DeadForwardExample | src/conductor.cpp:211-213 | a run that ends in it |
| Theorems.NoForeignResponses | src/waterproof/server.cpp:490-496 | in every run, a response is written to the creator of its instance or to socket 0, never to another client |
| Theorems.OnlyFailuresInvalidate | src/waterproof/server.cpp:498-502 | in every run, the writer invalidates a socket only after a write to it failed |
| Theorems.UnmappedForGood | src/waterproof/server.cpp:32-49 | in every run, an instance once unmapped is never mapped to its creator again, and the creator gets at most one more response for it: the one the writer had popped for it before |
| Theorems.SilentExactly | src/waterproof/server.cpp:488-496 | no byte for an unmapped instance can reach its creator any more if and only if the writer holds no response of it for the creator, or the socket is closed, or the program is dead |
| Examples.ResponseAfterUnmapExample | src/waterproof/server.cpp:488-496 | a run in which a destroyed instance's forward response is still to be written to its creator |
| Delivery.NothingLost | src/sertop/worker_posix.cpp:303-317 | in every run, the complete messages sertop printed are, in order, the popped, the queued at the server, the queued at the conductor, and the pending ones |
| Delivery.ClientSeesPrefix | src/waterproof/server.cpp:472-496 | in every run, the contents of the forward responses written whole to an instance's creator are a prefix of the messages sertop printed |
| Delivery.CreatorReceives | src/waterproof/server.cpp:472-502 | in every run, the creator has got the first responses popped for its instance, of whatever kind; while it is mapped and no write to it just failed, all but the one in the writer's hand |
| Delivery.EndToEnd | src/waterproof/server.cpp:184-239 | in every run, decode the bytes that reached an instance's creator, cut anywhere, and load the payloads: the contents of its forward responses are a prefix of the messages sertop printed, if no byte follows a failed write to that client |
| Delivery.FailuresEndWrites | src/waterproof/server.cpp:494-502 | in every run, that condition holds for a client that `unmap` wrote nothing to |
| Delivery.EndToEndWithoutDestroy | src/waterproof/server.cpp:184-239 | the end-to-end claim without the condition, for such a client |
| Examples.OutOfStepExample | src/waterproof/server.cpp:41-45 | a run in which `unmap` fails after 6 bytes and the next write makes the client decode a payload that was never sent |
| Examples.EndToEndFailsExample | src/waterproof/server.cpp:41-45 | the end-to-end claim without its condition is false: this run, its writes and a client's library are the counterexample |
| Delivery.SertopSeesRequests | src/sertop/worker.cpp:79-134 | in every run, the forwards that clients sent for an instance are, byte for byte and in order: on sertop's stdin, in the middle of a write, in the worker's queue, or waiting |
| HandOff.FrontIsThere | src/waterproof/server.cpp:352-378 | in every interleaving, even with failing acks, `front` never runs on an empty queue |
| HandOff.RegisteredInAcceptOrder | src/waterproof/server.cpp:282-387 | clients are polled in accept order, each once, and all of them when no ack is under way |
| HandOff.AcksCountClients | src/waterproof/server.cpp:292-378 | without I/O errors the queue length is acks in flight, plus a push without ack yet, plus an ack without pop yet |
| HandOff.SlotsSuffice | src/waterproof/server.cpp:324-384 | no run that accepts at most n clients overruns the poll array, if and only if n <= 255 |
| HandOff.AllRegistered | src/waterproof/server.cpp:352-384 | for every n up to 255 a run accepts and registers n clients |
| HandOff.OverrunExample | src/waterproof/server.cpp:383-384 | the run in which the 256th client overruns the array |
| HandOff.ReadThread.Register | src/waterproof/server.cpp:372-384 | the oldest new client takes the next slot |

## Left out

- System calls, `poll`, process creation, pipes, sockets, address resolution: only their results appear, as arbitrary values.
- `src/sertop/worker_win.cpp`, `src/waterproof/server_win.cpp` and the api wrappers: platform variants without a new core property.
- JSON parsing, dumping and `config`; exceptions of the JSON library other than `parse_error` while reading, and other than `api_error` while creating a worker, which the code does not catch.
- Deadlock freedom, progress and orderly shutdown: `invalidate` and destroy requests take two locks in opposite orders, and removing a worker joins its threads under the queue lock. Removal is an atomic map update here.
- Two threads writing to one socket at once (`unmap` and the write loop): one call of `write` is one step in `Router`.
- The order of destroy responses sent by `unmap` relative to queued responses: they may overtake anything.
- Closing of descriptors other than client sockets, logging, signals, timing, and the inside of `std::priority_queue`.
- The threads of the router run as step machines on values (`Router`, `HandOff`), not as methods on shared objects: a Dafny method cannot be interrupted. The classes give each critical section in place, and their loops let the other threads' sections run between two of their own.
- Workers.Worker.ReadLoop: a stop by another thread is a shorter list of events.
- Which workers the conductor removes after `invalidate`: any, in `Router`, since the ids reported are not those of the removed entries.
