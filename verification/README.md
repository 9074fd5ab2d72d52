# MrUDP in Dafny

MrUDP is a reliable transport over UDP. This project models the code that turns application bytes into frames
and packets, moves them over a network that loses, duplicates and reorders, and hands them back in order,
together with the machinery around it: handshake, retries, timers, closing, connection tables, the ring buffer
and the proxy framing. `dafny verify dfyconfig.toml` checks all of it.

Most components come in two parts. A module of values and functions (`SendQueues`, `ReceiveQueues`,
`Retriers`, `Schedulers`, ...) says what the component computes and carries the theorems. A module of objects
(`SendQueueObjects`, `ReceiveQueueObjects`, ...) follows the source's fields and loops and is proved equal to
the functions, method by method. Theorems over runs quantify over all sequences of steps.

| file | what it covers |
|---|---|
| Serial.dfy | wrapping 16-bit ids and their comparison |
| Wire.dfy, Packets.dfy | bytes, frames, the packet buffer used as a stack |
| SendQueue.dfy, ReceiveQueue.dfy | coalescing into packets, reordering |
| Compression.dfy | batches of the compressed stream |
| Transport.dfy, Progress.dfy | sender, network and receiver as one transition system: order, conservation, and when everything can still be delivered |
| Delivery.dfy, Mixed.dfy | what the application sees, for one coalescing mode and for modes that change |
| Receiver.dfy, Acks.dfy, Sender.dfy | the two ends as objects, acknowledgements |
| Rtt.dfy, Retrier.dfy, Pacing.dfy | round-trip estimate, retries, and never stalling with threads interleaving |
| Connection.dfy | when a connection is over |
| Handshake.dfy | the layers of a handshake packet and the four-packet protocol |
| Scheduler.dfy | timeouts, passes, the one timer |
| CircularBuffer.dfy, Proxy.dfy | the ring buffer and the proxy wire that uses it |
| Socket.dfy | the two connection indexes and the id allocator |

## Modelling decisions

- Frames and packets are numbered by unbounded indices in the proofs; only `index mod 2^16` travels.
- The network is the history of everything sent. Any packet or acknowledgement in it may be delivered any
  number of times, in any order, or never.
- The code relies on ids wrapping slowly, so `Transport.Allowed` states it: a packet is delivered while its
  frames are nearer than 2^15 to the expected one, a packet id is not reused while its packet is unacknowledged
  or an old acknowledgement for it can arrive, and one compressed batch stays below 2^31 bytes. Connections without
  compressed messages and with fewer than 2^15 frames and 2^16 packets need none of this (`Transport.ShortRunsDeliverInOrder`).
- zlib is an unknown pair of functions with `inflate(deflate(x)) == x`, where `deflate` may fail and never makes
  its input longer.
- Integers in memory are little-endian. Clocks, random numbers and the operating system's timer are parameters
  or one optional deadline. Round trips and windows are over the reals. The scheduler counts nanoseconds, retries and
  delayed acknowledgements are timed in whole milliseconds.
- A locked region is one atomic step. `Pacing` makes the gaps between locked regions explicit (the round-trip
  estimate and the window derived from it are updated in one step), and `Schedulers` lets any operations happen while
  a callback runs and between a pass and its timer.
- The coalescing mode belongs to each message, since options can change on an open connection.
- `CircularBuffer::grow` copies within its own buffer; each segment is copied as a whole, as memmove would.

## What the proofs found

Each of these has a lemma with the exact condition and a concrete case beside it.

- Between 2^15 and 2^16 the comparison of ids fails (at exactly 2^15 for half of all positions), and a late copy can take
  the place of a future frame (`ReceiveQueues.ReceiveExact`).
- When the mode changes on an open connection, a plain message overtakes compressed ones that still wait
  (`Mixed.OrderExact`).
- In compressed mode the close frame overtakes pending messages (`Delivery.CompressedCloseExact`), and a failed
  connection with pending bytes is never closed (`Connections.FailClosesExact`).
- The retrier serves the smallest id, not the oldest. When ids come round, a new packet has no retry time yet
  and is retransmitted at once (`Retriers.SendPatientExact`).
- `Scheduler::process` sets the timer after releasing the lock and can overwrite an earlier one
  (`Schedulers.GapExact`).
- `isFull` tests for equality with 65534 and `connect` does not ask, so with 65534 ids taken it denies the last
  one, and with all 65535 taken it promises one the allocator cannot find (`Sockets.IsFullExact`).
- A proxy message of 2^16 bytes or more is cut by its size field (`Proxies.DataSizeExact`).

A connection must be erased once only: erasing it again would break another one that has its short id by then
(`Sockets.EraseExact`). The source keeps to that.

Two places where the code is stricter or looser than its names suggest, and the model follows the code: the window
is declared with a maximum of 1024 packets, but the smallest round trip of 5 ms allows at most 400
(`Rtts.WindowBounds`); and a negative retry limit never fails a connection, because the comparison is unsigned
(`Retriers.NegativeLimitNeverFails`).

## Model

| member | source | states |
|---|---|---|
| Serial.GreaterThanExact | mrudp/Packet.inl:9-25 | For indices less than 2^16 apart, comparing the wrapped ids agrees with the order of the indices if and only if they are less than 2^15 apart, or exactly 2^15 apart with the plain order agreeing. |
| Serial.HalfDistanceFails | mrudp/Packet.inl:9-25 | At distance exactly 2^15 the comparison is right for ids in one half of the space and wrong in the other, in opposite halves for the two directions. |
| Serial.GreaterThanTrichotomy | tests/PacketID.cpp:13-21 | Of two different ids exactly one is greater; no id is greater than itself. |
| Serial.IdGenerator.NextID | mrudp/sender/IDGenerator.inl:12-16 | Issues the wrapped ids of consecutive indices, across wraps. |
| Wire.WalkEncode | mrudp/receiver/ReceiveQueue.cpp:53-89 | The receive walk over encoded frames visits exactly those frames, in order, before whatever follows. |
| Wire.WalkRoundTrip | mrudp/receiver/ReceiveQueue.cpp:53-89 | For a packet built by pushing frames the walk yields the pushed frames and nothing else. |
| Wire.WalkStaysInside | mrudp/receiver/ReceiveQueue.cpp:57-67 | On arbitrary bytes the walk ends and never leaves the packet: re-encoding what it visited is a prefix of the input. |
| Packets.PopPush | mrudp/Packet.inl:27-37 | A pop returns the last value pushed and leaves the body before that push. |
| Packets.Packet.PushData | mrudp/Packet.inl:68-81 | Appends all bytes or none; succeeds exactly when the body stays within 1500 bytes. |
| Packets.Packet.PushValue | mrudp/Packet.inl:83-88 | Reports success even when the value did not fit and was dropped. |
| Packets.Packet.PopData | mrudp/Packet.inl:27-37 | Takes exactly the tail bytes, or fails and changes nothing. |
| Packets.Packet.PeekData | mrudp/Packet.inl:57-66 | Returns what a pop would, without changing the packet. |
| Packets.Packet.PushFrame | mrudp/Packet.inl:136-142 | When header and payload fit, appends exactly one encoded frame and succeeds; a header that does not fit is dropped and only the payload decides the answer. |
| Packets.Packet.PushSized | mrudp/Packet.inl:90-97 | Pushes the payload, then its size on top; the size alone may be dropped while success is reported. |
| Packets.Packet.PopSized | mrudp/Packet.inl:107-121 | Undoes PushSized for every payload below 2^16 bytes; on a short body the size is lost and the rest kept. |
| SendQueues.StreamLoopGrew | mrudp/sender/SendQueue.cpp:59-84 | The streaming loop ends and appends non-empty frames with consecutive ids whose payloads concatenate to the input, leaving earlier packets untouched and every packet at most 1436 bytes. |
| SendQueues.CoalesceStreamGrew | mrudp/sender/SendQueue.cpp:51-87 | The same for coalesceStream from any queue state, the empty one included. |
| SendQueues.EnqueueGrew | mrudp/sender/SendQueue.cpp:188-207 | In every uncompressed mode an enqueued message becomes frames that spell exactly that message; one frame unless streaming. |
| SendQueues.StreamFills | mrudp/sender/SendQueue.cpp:59-84 | Streaming opens another packet only behind one in which not one more byte of payload fits. |
| SendQueues.JoinsExact | mrudp/sender/SendQueue.cpp:29-49 | A message that is coalesced joins the last packet exactly when the packet stays below 1436 bytes, and else gets its own. |
| SendQueueObjects.SendQueue.AppendFrame | mrudp/sender/SendQueue.cpp:66-74 | Pushing a frame into the last packet in place appends that frame to the model and touches no other packet. |
| SendQueueObjects.SendQueue.PushIntoLast | mrudp/sender/SendQueue.cpp:66-74 | The last packet then holds its frames and the new one; pushFrame does not fail. |
| SendQueueObjects.SendQueue.StreamTurn | mrudp/sender/SendQueue.cpp:60-84 | One turn writes a frame exactly when the last packet has room, else opens a packet that has; what remains streams to the same end. |
| SendQueueObjects.SendQueue.CoalesceStream | mrudp/sender/SendQueue.cpp:51-87 | The loop over packet buffers computes the streaming model. |
| SendQueueObjects.SendQueue.AppendSingle | mrudp/sender/SendQueue.cpp:197-206 | A message that is not coalesced gets a packet of its own with one frame. |
| SendQueueObjects.SendQueue.Enqueue | mrudp/sender/SendQueue.cpp:170-207 | All four modes, with the closed queue ignoring the call, compute the model. |
| SendQueueObjects.SendQueue.Compress | mrudp/sender/SendQueue.cpp:114-168 | Turns all pending bytes into one batch of frames and empties the buffer. |
| SendQueueObjects.SendQueue.Dequeue | mrudp/sender/SendQueue.cpp:209-224 | Flushes only when no packet waits, hands out the front packet holding exactly its frames, and keeps no reference to it. |
| SendQueueObjects.SendQueue.Close | mrudp/sender/SendQueue.cpp:18-27 | Drops the packets but not the compression buffer. |
| ReceiveQueues.DrainKeeps | mrudp/receiver/ReceiveQueue.cpp:16-45 | Draining delivers the peer's next frames in order, forgets no accepted frame and ends with the expected frame absent. |
| ReceiveQueues.ReceiveFrameKeeps | mrudp/receiver/ReceiveQueue.cpp:69-88 | A frame from nearer than 2^15 is delivered, held or already known; what was delivered stays a prefix of the peer's frames. |
| ReceiveQueues.ReceiveAllKeeps | mrudp/receiver/ReceiveQueue.cpp:47-90 | The same for a whole packet within reach when it arrives: no frame falls out of reach while earlier ones are drained, and all are accepted. |
| ReceiveQueues.AllAccepted | mrudp/receiver/ReceiveQueue.cpp:24-45 | If every frame of the peer is accepted, all are delivered and nothing is held. |
| ReceiveQueues.ReceiveExact | mrudp/receiver/ReceiveQueue.cpp:69-96 | For a frame from any distance and any resting queue: the queue stays true to the peer's frames and accepts the frame if and only if a frame ahead is comparable with the expected one or held already, or a late copy is too far from the next frame with its id to pass for it, that one is held already, or both are the same. The queue is then at rest again. |
| ReceiveQueues.NearReceiveExact | mrudp/receiver/ReceiveQueue.cpp:69-96 | Less than a wrap away this says: the frame is comparable, its id is held, or it is a late copy that equals the frame one wrap later. |
| ReceiveQueues.ArrivalsKeep | mrudp/receiver/ReceiveQueue.cpp:47-96 | Any frames of the peer in any order, each in place when it comes: a prefix is delivered and every one is accepted. |
| ReceiveQueues.HalfDistanceWitness | mrudp/receiver/ReceiveQueue.cpp:76-95 | A state in which a late copy of frame 32768 is filed as frame 98304. |
| ReceiveQueueObjects.ReceiveQueue.ProcessNext | mrudp/receiver/ReceiveQueue.cpp:24-45 | Delivers the expected frame if held, and says whether it did. |
| ReceiveQueueObjects.ReceiveQueue.ProcessQueue | mrudp/receiver/ReceiveQueue.cpp:16-22 | The loop computes the drain. |
| ReceiveQueueObjects.ReceiveQueue.OnFrame | mrudp/receiver/ReceiveQueue.cpp:69-96 | Deliver, hold unless already held, or discard. |
| ReceiveQueueObjects.FrameAt | mrudp/receiver/ReceiveQueue.cpp:57-67 | The two length checks accept a frame exactly when the walk does, and it ends inside the packet. |
| ReceiveQueueObjects.ReceiveQueue.OnReceive | mrudp/receiver/ReceiveQueue.cpp:47-90 | On any packet the loop ends and processes exactly the frames of the walk. |
| Compression.SubframesRoundTrip | mrudp/receiver/Receiver.cpp:92-119 | Unpacking the concatenated message records gives back the messages, boundaries included. |
| Compression.BatchRoundTrip | mrudp/sender/SendQueue.cpp:114-168 | Compressed or raw, a batch announces its own length and unpacks to what was pending; it is compressed exactly when the level is positive, at least 48 bytes wait and zlib succeeds. |
| Compression.AbsorbBatch | mrudp/receiver/Receiver.cpp:121-180 | Absorbing the frames of a batch hands over exactly its messages and leaves the buffer empty. |
| Compression.AbsorbNeverPassesEnd | mrudp/receiver/Receiver.cpp:126-144 | Before the last frame of a batch the buffer is a proper prefix of it: the accumulator never passes a batch end. |
| Compression.AbsorbAllGrows | mrudp/receiver/Receiver.cpp:121-180 | What was handed over is never taken back. |
| CompressedReceivers.CompressedReceiver.ProcessCompressedSubframes | mrudp/receiver/Receiver.cpp:92-119 | The pointer loop hands over exactly the messages of the unpacking model. |
| CompressedReceivers.CompressedReceiver.ProcessCompressed | mrudp/receiver/Receiver.cpp:121-180 | Accumulates, unpacks a complete batch in either format, and resets. |
| Transport.InOrderExactlyOnce | mrudp/receiver/ReceiveQueue.cpp:16-96 | In every run over a network that loses, duplicates and reorders, across any number of wraps, the frames handed to the processor are a prefix of the frames the peer numbered, and longer runs only append. |
| Transport.Conservation | mrudp/sender/Retrier.cpp:94-135 | Until the sender fails, every packet ever transmitted is in the retry window or fully accepted by the peer, and numbered frames are exactly transmitted ones followed by queued ones. |
| Transport.EmptySenderDelivered | mrudp/sender/Sender.cpp:136-139 | A sender that never failed and has an empty window and queue has had every frame delivered; the peer's reorder queue is empty. |
| Transport.FailIsFinal | mrudp/sender/Sender.cpp:175-187 | After a failure, in every continuation, the sender is closed, keeps and queues nothing, accepts no message, and no further frame is numbered or transmitted. |
| Transport.TransmitKeeps | mrudp/sender/Sender.cpp:94-108 | Flushing, dequeuing, numbering, keeping and sending a packet keeps the data-path invariant. |
| Transport.DeliverKeeps | mrudp/receiver/Receiver.cpp:191-215 | Acknowledging and processing any packet within reach, new or duplicate, keeps the invariant and only appends deliveries. |
| Transport.AckKeeps | mrudp/sender/Retrier.cpp:94-135 | An acknowledgement removes only a packet the peer has accepted. |
| Transport.RunKeeps | mrudp/sender/Sender.cpp:85-245 | Every allowed run keeps the invariant, and history only grows. |
| Transport.AcceptsExact | mrudp/sender/Sender.cpp:225-245 | A message is accepted exactly when the sender is not closed and the message has at most 1431 bytes or is streamed; a refused one changes nothing. |
| Transport.ShortRunsAreAllowed | mrudp/Packet.inl:9-25 | With no message compressed, fewer than 2^15 frames and fewer than 2^16 packets, every run whatsoever meets the assumptions on ids. |
| Transport.ShortRunsDeliverInOrder | mrudp/receiver/ReceiveQueue.cpp:16-96 | Such connections deliver in order with no assumption on the network. |
| Progress.CanDeliver | mrudp/sender/Retrier.cpp:168-234 | From every reachable state with an unfailed sender and a receiver that is not closed, whatever was lost, some continuation ends with every numbered frame processed, provided no unprocessed close frame is in front of others. |
| Progress.CannotDeliver | mrudp/receiver/Receiver.cpp:191-194 | With more than 2^15 frames behind an unprocessed close frame no continuation does. |
| Progress.PlainCanDeliver | mrudp/sender/Retrier.cpp:168-234 | With no message compressed, from every such state every accepted byte can still be handed over. |
| Delivery.HandsOverAPrefix | mrudp/receiver/Receiver.cpp:63-90 | With no message compressed, and the mode free to change from message to message, the application is handed a prefix of the accepted bytes; with none streamed, a prefix of the very messages. |
| Delivery.GracefulCloseIsComplete | mrudp/sender/Sender.cpp:158-173 | With no message compressed, when the close frame is processed every accepted byte has been handed over, and no later step numbers or accepts anything. |
| Delivery.ClosedIsFinal | mrudp/sender/Sender.cpp:225-245 | After a close with nothing pending, no step of any run accepts or numbers anything. |
| Delivery.CompressedRoundTrip | mrudp/sender/SendQueue.cpp:89-168 | With every message compressed, for every interleaving of sends, flushes, losses and deliveries, the application is handed a prefix of the accepted messages, and all of them once a sender that never failed is empty. |
| Delivery.CompressedCloseExact | mrudp/sender/Sender.cpp:158-173 | Over whole runs in compressed mode: when the close frame is processed the application has been handed every accepted message if and only if nothing was waiting to be compressed when close was called. |
| Delivery.CompressedCloseWitness | mrudp/sender/Sender.cpp:158-173 | A run in which the receiver closes on the close frame while an accepted message has not been numbered. |
| Receivers.DeliverMirrors | mrudp/receiver/Receiver.cpp:191-215 | A delivery of the transition system is what the receiver does with the packet's bytes: status, order, acknowledgement, and what the application holds. |
| Receivers.RunMirrors | mrudp/receiver/Receiver.cpp:25-215 | Along every run the receiver, fed with packet bytes, is where the transition system says, and the application holds exactly what the delivered frames carry. |
| Receivers.ApplicationIsHanded | mrudp/receiver/Receiver.cpp:63-180 | With no message compressed the application is handed a prefix of the accepted bytes (of the messages, if none is streamed); with every message compressed, a prefix of the accepted messages. The peer is sent CLOSE_READ at most once. |
| Mixed.EachKindInOrder | mrudp/sender/SendQueue.cpp:170-224 | In every run, the mode changing as it may, the application is handed plain and compressed messages merged, and of each kind a prefix of those accepted, in order. |
| Mixed.OrderExact | mrudp/sender/SendQueue.cpp:188-224 | Over a whole run, what is numbered followed by what waits is at all times what was accepted, byte for byte or message for message, if and only if every plain message commutes with those waiting when it is accepted. |
| Mixed.PlainExact | mrudp/sender/SendQueue.cpp:188-207 | One plain message keeps that order if and only if it commutes with what waits to be compressed. |
| Mixed.CommutesIfNothingWaits | mrudp/sender/SendQueue.cpp:215-216 | When nothing waits every message commutes. |
| Mixed.OrderlyRunsDeliver | mrudp/receiver/Receiver.cpp:63-180 | In such runs the application is handed a prefix of the accepted bytes, of the accepted messages if none is streamed. |
| Mixed.AllDelivered | mrudp/receiver/Receiver.cpp:63-180 | With everything flushed and delivered, the application holds what was accepted if and only if the order was kept. |
| Mixed.OvertakingWitness | mrudp/sender/SendQueue.cpp:209-224 | A run with a compressed message and then a plain one, in which the application is handed the second and not the first. |
| Receivers.ClosesExact | mrudp/receiver/Receiver.cpp:33-89 | Frames close the receiver exactly when they come reliably and a close frame is among them, and then exactly one CLOSE_READ is sent if the peer is known. |
| Receivers.HandsPlain | mrudp/receiver/Receiver.cpp:63-75 | Without compressed frames the data frames are handed over one by one. |
| Receivers.HandsCompressed | mrudp/receiver/Receiver.cpp:76-80 | Without plain data frames the messages of the compressed stream are handed over. |
| Receivers.ProcessHears | mrudp/receiver/Receiver.cpp:63-70 | The sender hears exactly the acknowledgements among the frames, in order. |
| Receivers.AcksAreHeard | mrudp/receiver/Receiver.cpp:63-215 | End to end: acknowledgements that are queued, put into packets and received by an open receiver reach its sender, each once and in order, and change neither its status, its reorder queue nor what it acknowledges. |
| Receivers.AcknowledgesExact | mrudp/receiver/Receiver.cpp:182-215 | An open receiver acknowledges reliable data, probes and CLOSE_READ, a receiver that is not open nothing; packets without data change nothing else. |
| ReceiverObjects.Receiver.ProcessReceived | mrudp/receiver/Receiver.cpp:63-90 | Dispatch of one frame: an acknowledgement is heard, data is handed over, compressed data is absorbed, a reliable close frame closes, and nothing else does. |
| ReceiverObjects.Receiver.ProcessFrames | mrudp/receiver/Receiver.cpp:14-17 | The processor runs over the frames of a queue in order; the sender hears the acknowledgements among them. |
| ReceiverObjects.Receiver.Close | mrudp/receiver/Receiver.cpp:33-53 | Closes once, telling the peer if its id is known. |
| ReceiverObjects.Receiver.OpenReceiver | mrudp/receiver/Receiver.cpp:25-31 | Processes what is held, then opens unless already closed. |
| ReceiverObjects.Receiver.OnReceivePacket | mrudp/receiver/Receiver.cpp:182-215 | Ignores packets unless open, acknowledges the types that require it, orders and processes reliable frames, processes unreliable ones as they come. |
| Acks.AckRoundTrip | mrudp/Packet.h:137-142 | Decoding an encoded acknowledgement gives it back. |
| Acks.QueuedAcksAreRead | mrudp/sender/Sender.cpp:345-358 | After queuing, the frames read as the earlier acknowledgements followed by exactly the new ones; packets that were small stay small. |
| Acks.AcksRoundTrip | mrudp/sender/Sender.cpp:327-361 | Through frames, packets and bytes each collected acknowledgement reaches the peer once, in order. |
| AckObjects.StampAnswers | mrudp/sender/Sender.cpp:345-351 | One acknowledgement per waiting entry, in order, with its packet id and the milliseconds it waited, modulo 2^16. |
| AckObjects.QueuedAnnounces | mrudp/sender/Sender.cpp:345-358 | Queued, they read as the earlier acknowledgements followed by one per waiting entry with that packet id and delay. |
| AckObjects.DelayedAcks.Acknowledge | mrudp/sender/Sender.cpp:313-322 | Appends to the waiting list and nothing else. |
| AckObjects.DelayedAcks.EnqueueBatch | mrudp/sender/Sender.cpp:345-358 | Enqueues one frame per waiting entry, in order; read back, the acknowledgements carry exactly those packet ids and their delays. |
| AckObjects.DelayedAcks.QueueBatch | mrudp/sender/Sender.cpp:332-360 | One turn of the loop queues exactly what waited, with those packet ids and delays, and leaves what came in meanwhile. |
| AckObjects.DelayedAcks.QueueDelayedAcks | mrudp/sender/Sender.cpp:327-361 | Swaps and drains until nothing waits, with others adding meanwhile; read back, the queue holds the earlier acknowledgements and then one for every entry that came before the last look, with its packet id and delay, in order of arrival. |
| Rtts.CalculateInBounds | mrudp/sender/RTT.h:26-33 | The estimate stays within 5 ms and 1 s for every sample, negative ones included. |
| Rtts.CalculateMoves | mrudp/sender/RTT.h:23-33 | Within the bounds the estimate moves a tenth of the way to the sample. |
| Rtts.CalculateExact | mrudp/sender/RTT.h:23-33 | For every sample the estimate is nine tenths of the old one and one tenth of the sample, or the bound that passes. |
| Rtts.FailuresConverge | mrudp/sender/RTT.h:41-46 | Consecutive failures approach the maximum geometrically with ratio 0.9. |
| Rtts.WindowBounds | mrudp/sender/WindowSize.h:41-50 | The window is between 3 and 400 packets; the nominal 1024 is never reached. |
| Rtts.WindowExact | mrudp/sender/WindowSize.h:41-50 | The window is the largest number of round trips that fit into two seconds, and at least 3. |
| Rtts.WindowAntitone | mrudp/sender/WindowSize.h:46-49 | A larger round-trip estimate never gives a larger window. |
| Rtts.FailureShrinks | mrudp/sender/RTT.h:41-46 | A failure never lowers the estimate and never widens the window. |
| Rtts.RetryMillisBounds | mrudp/sender/Retrier.cpp:150-154 | A retry waits between 40 and 2030 ms. |
| Rtts.RetryMillisExact | mrudp/sender/Retrier.cpp:150-162 | The wait is twice the estimate and 30 ms, cut to whole milliseconds. |
| Retriers.RetryIsBounded | mrudp/sender/Retrier.cpp:168-234 | In every run with a non-negative limit each packet is transmitted at most 1 + limit times per path, at most 400 data packets are unacknowledged, and while any waits the timeout is set and finds it. |
| Retriers.RetransmissionsAreBounded | mrudp/sender/Retrier.cpp:168-234 | Without new packets, retransmissions are bounded by the attempts left, however acknowledgements and timeouts interleave. |
| Retriers.GivesUpOnlyWhenExhausted | mrudp/sender/Retrier.cpp:182-192 | In every run in which nobody else closes it, the retrier is closed only over a packet it has transmitted 1 + limit times. |
| Retriers.TimeoutExact | mrudp/sender/Retrier.cpp:168-234 | For the packet whose turn it is: before its time a timeout only sets the timeout again; after it, it closes the retrier exactly when the limit is not negative and reached, and otherwise the packet is sent once more, its attempts and time are noted, a failure is sampled and the next wait starts; no other packet changes. |
| Retriers.SendExact | mrudp/sender/Sender.cpp:189-200 | A packet is transmitted once and kept with no attempts made and the time noted, unless the retrier is closed; only the first packet or one with priority sets the timeout. |
| Retriers.AckExact | mrudp/sender/Sender.cpp:381-402 | An acknowledgement takes out its packet alone; its sample moves the estimate, the window follows, and the timeout is set again exactly when the packet had priority or the smallest id. |
| Retriers.NextRetryExact | mrudp/sender/Retrier.cpp:38-53 | The next retry is the smallest id among the packets with priority, or among all if none has. |
| Retriers.NextRetryFound | mrudp/sender/Retrier.cpp:38-53 | The next retry exists exactly when the window is non-empty and is always found in it, priority packets included. |
| Retriers.NegativeLimitNeverFails | mrudp/sender/Retrier.cpp:182-192 | With a negative limit the unsigned comparison never fails the connection. |
| Retriers.SendPatientExact | mrudp/sender/Retrier.cpp:55-92 | Sending an ordinary packet keeps the next packet's retry time right if and only if the new packet does not have the smallest id while others wait; otherwise it is due at once. |
| Retriers.RetriesAreNeverEarly | mrudp/sender/Retrier.cpp:156-177 | In runs without such overtaking the timeout is set for exactly when the next packet is due, and nothing is retransmitted within 40 ms of its last transmission. |
| Retriers.EarlyRetryWitness | mrudp/sender/Retrier.cpp:38-92 | A run that takes all ids in turn: with packet 65535 waiting, the next packet 0 is retransmitted 2 ms after it was sent. |
| Retriers.WindowIds | mrudp/sender/Retrier.cpp:55-135 | As a set of ids the window gains one by a send, loses one by an acknowledgement, and is kept or emptied by a timeout. |
| RetrierObjects.Retrier.GetNextRetry | mrudp/sender/Retrier.cpp:38-53 | Priority first, then the smallest id. |
| RetrierObjects.Retrier.RecalculateRetryTimeout | mrudp/sender/Retrier.cpp:156-166 | Sets the next packet's retry time and the timeout to it, if anything waits. |
| RetrierObjects.Retrier.InsertRetry | mrudp/sender/Retrier.cpp:55-92 | Refused when closed; recalculates when the window was empty or the packet has priority. |
| RetrierObjects.Retrier.SendReliably | mrudp/sender/Sender.cpp:189-200 | Kept for retry, then transmitted once. |
| RetrierObjects.Retrier.OnSample | mrudp/sender/RTT.h:36-39 | Updates the estimate and derives the window from it. |
| RetrierObjects.Retrier.OnAck | mrudp/sender/Retrier.cpp:94-135 | Removes the packet, samples the time since it was last sent less the delay reported, and recalculates when it was first or had priority; unknown ids change nothing. |
| RetrierObjects.Retrier.CloseRetrier | mrudp/sender/Retrier.cpp:27-36 | Clears the window but not the priority set. |
| RetrierObjects.Retrier.OnRetryTimeout | mrudp/sender/Retrier.cpp:168-234 | Retransmits the next packet if due, fails when its attempts are used up, else re-arms. |
| Pacing.NeverStalls | mrudp/sender/Sender.cpp:36-109 | In every interleaving of enqueue, acknowledgement, drain and retry steps: queued data of a ready sender has a deadline, a full window, a drain or a thread about to schedule; a deadline outside a drain has its timeout armed or just fired; unacknowledged packets have the retry timeout armed or about to be; at most one thread drains. |
| Pacing.RestsOnlyOnTimers | mrudp/sender/Sender.cpp:247-284 | With all threads at rest, waiting data rests on an armed timeout. |
| Pacing.DeadlinesComeForward | mrudp/sender/Sender.cpp:271-283 | Until a drain takes it over, a deadline is only brought forward, never past a request. |
| Pacing.DeadlineIsEarliest | mrudp/sender/Sender.cpp:36-82 | In every interleaving the deadline is the earliest time requested since a drain last began, and there is none when nothing was requested. |
| Pacing.NothingVanishes | mrudp/sender/Sender.cpp:85-109 | Until a failure, in every interleaving, what is queued is what was enqueued less what was taken, and what is unacknowledged is what was sent less what was acknowledged. |
| Pacing.NextKeeps | mrudp/sender/Sender.cpp:381-406 | Every single step of every thread keeps these invariants. |
| ScheduleObjects.ProcessingSchedule.RequestAt | mrudp/sender/Sender.cpp:265-283 | The locked region is the scheduling step. |
| ScheduleObjects.ProcessingSchedule.BeginProcess | mrudp/sender/Sender.cpp:43-52 | The locked region is the entering step; a second drain is turned away. |
| ScheduleObjects.ProcessingSchedule.EndProcess | mrudp/sender/Sender.cpp:66-82 | The locked region is the leaving step; a deadline set meanwhile is armed. |
| Senders.DrainTransmits | mrudp/sender/Sender.cpp:85-109 | A drain is a run of single transmissions of the transition system and stops only when the window is full or nothing is left. |
| Senders.NothingUnchanged | mrudp/sender/SendQueue.cpp:209-224 | A dequeue that finds nothing changes nothing and means the queue is closed or empty, compression buffer included. |
| Senders.Sender.Accept | mrudp/sender/Sender.cpp:225-245 | Answers that the connection is closed exactly after a close, that the packet is too large exactly for an unstreamed message of more than 1431 bytes; else enqueues. |
| Senders.Sender.CloseGracefully | mrudp/sender/Sender.cpp:158-173 | Enqueues the close frame once, whatever the mode. |
| Senders.Sender.Fail | mrudp/sender/Sender.cpp:175-187 | Closes retrier and queue. |
| Senders.Sender.SendReliably | mrudp/sender/Sender.cpp:189-209 | Takes the next id, one place in the window as the retrier keeps it, and keeps the following ids unused. |
| Senders.Sender.SendControl | mrudp/sender/Sender.cpp:189-209 | A packet without frames takes the next id and a place in the window, unless the retrier is closed. |
| Senders.Sender.SendOne | mrudp/sender/Sender.cpp:96-106 | One turn gives the connection exactly the packet dequeued, holding the frames the model takes, and moves it into the window; or finds nothing. |
| Senders.Sender.DrainLoop | mrudp/sender/Sender.cpp:92-108 | The loop ends, computes the drain, and the packets given to the connection hold exactly the frames drained, in order; it stops only with a full window, which it does not overfill, or with nothing left to send. |
| Senders.Sender.ProcessReliableDataQueue | mrudp/sender/Sender.cpp:85-109 | Sends nothing before the connection is ready, else drains; the packets given to the connection hold the frames drained. |
| Connections.NotifiedOnce | mrudp/Connection.cpp:187-200 | The close handler is called at most once, and exactly when the connection closes. |
| Connections.ConnectionIsOver | mrudp/Connection.cpp:161-172 | In every run a connection with both directions closed and nothing unacknowledged, queued or waiting to be compressed is closed; conversely a closed one has both directions closed and nothing queued or waiting, and nothing unacknowledged unless a control packet was sent after it closed. |
| Connections.ClosedExact | mrudp/Connection.cpp:152-185 | Closed means exactly that; every single step keeps it, except one: a control packet that is kept although the connection is closed. |
| Connections.LookExact | mrudp/Connection.cpp:161-200 | After a close by the user, an acknowledgement, the end of the peer's data, CLOSE_READ or a failure the connection is closed if and only if it was before or is finished now, and the handler is called with the reason. |
| Connections.QuietExact | mrudp/Connection.cpp:161-172 | No other step closes a connection or finishes one, so it is enough to look after these. |
| Connections.CloseTells | mrudp/Connection.cpp:152-159 | The first close queues one close frame behind everything else and sends a reliable CLOSE_READ to a known peer; closing again sends nothing. |
| Connections.InFlight | mrudp/sender/Sender.cpp:175-209 | What each other step does to the number of unacknowledged packets, a failure emptying it. |
| Connections.FailClosesExact | mrudp/Connection.cpp:161-185 | A failure closes the connection if and only if no bytes wait to be compressed, and then reports the failure's reason. |
| Connections.FailWithPendingNeverCloses | mrudp/Connection.cpp:161-172 | With such bytes the failed connection is never closed, in any continuation. |
| Connections.StuckForever | mrudp/Connection.cpp:161-172 | The stuck state is kept by every step of the user, the peer and the timers. |
| Connections.ExhaustionCloses | mrudp/sender/Retrier.cpp:182-192 | With no message compressed, running out of retries always closes the connection with the timeout event. |
| Connections.StuckWitness | mrudp/Connection.cpp:174-185 | One message accepted in compressed mode is enough to keep a failed connection open for good. |
| ConnectionObjects.Connection.IsSenderEmpty | mrudp/sender/Sender.cpp:136-139 | True exactly when the retry window, the queued packets and the compression buffer are all empty. |
| ConnectionObjects.Connection.PossiblyCloseNow | mrudp/Connection.cpp:161-172 | Closes exactly when both directions are closed and nothing is unacknowledged, queued or pending, and then calls the handler once. |
| ConnectionObjects.Connection.FailWith | mrudp/Connection.cpp:174-185 | Records the reason, closes both directions, then possibly the connection. |
| ConnectionObjects.Connection.CloseReceiver | mrudp/receiver/Receiver.cpp:33-53 | Closes the receiving side once, sending a reliable CLOSE_READ if the peer is known. |
| ConnectionObjects.Connection.CloseByUserNow | mrudp/Connection.cpp:152-159 | Closes both directions gracefully, then possibly the connection. |
| Layers.LayersRoundTrip | mrudp/Connection.cpp:214-332 | For every handshake packet, addressed by long or short id, the receive layers pop exactly what the send layers pushed, in reverse order, and leave nothing. |
| Layers.OptionsRoundTrip | mrudp/Handshake_Options.cpp:20-50 | The options a server announces are those its client reads, negative limits included. |
| Handshakes.HandshakeAgreement | mrudp/Handshake.cpp:13-132 | In every reachable state under loss, duplication, reordering and erasure of the server's connection: a completed client knows the id of a server connection that completed and has the options the server announced, a completed server connection knows the client's id, nobody completes twice; and as long as the server has erased nothing, a completed client and the server agree. |
| Handshakes.RemadeExact | mrudp/Socket.cpp:227-330 | Once the client has completed, agreement can still come about without another erasure if and only if the connection the server has, or would make for a late H0, has the short id the client noted. |
| Handshakes.HandshakeKeepsAwaited | mrudp/Handshake.cpp:39-106 | Until the client completes or fails its retry window holds the packet whose answer it awaits. |
| Handshakes.HandshakeCanComplete | mrudp/Handshake.cpp:13-106 | From every reachable state, the server's connection erased or not, copies of packets the client has sent can bring both sides to completion. |
| Handshakes.ResendsReadTheSame | mrudp/Connection.cpp:326-332 | In every reachable state, however often it was resent, a kept packet that is resent reads as it did the first time. |
| Handshakes.FirstResend | mrudp/sender/Sender.cpp:189-200 | Before anything else happens a resend repeats the first transmission byte for byte. |
| Handshakes.RunKeeps | mrudp/Handshake.cpp:24-112 | Every run of both endpoints keeps the handshake invariant. |
| Handshakes.AnswersClear | mrudp/Packet.h:40-43 | ACK, H1, H3 and the answer to a challenge take the packet they answer out of the window; no other packet does. |
| HandshakeObjects.Endpoint.SendPacket | mrudp/Connection.cpp:296-324 | The options layer pushes on the packet itself; the packet is left with exactly that body. |
| HandshakeObjects.Endpoint.Transmit | mrudp/Connection.cpp:273-294 | The long id goes on a copy; the packet keeps its body. |
| HandshakeObjects.Endpoint.ResendKept | mrudp/Connection.cpp:326-332 | Sends the kept packet as it is; every kept packet keeps its body, so layers never pile up. |
| HandshakeObjects.Endpoint.KeepAndSend | mrudp/sender/Sender.cpp:189-200 | Kept first, then sent: what is kept is the packet as the layers left it. |
| HandshakeObjects.Endpoint.SendNew | mrudp/Handshake.cpp:63-79 | Builds the packet of each type and sends it. |
| HandshakeObjects.Endpoint.SendReliably | mrudp/sender/Sender.cpp:189-209 | Numbers, keeps unless closed, and sends. |
| HandshakeObjects.Endpoint.Initiate | mrudp/Handshake.cpp:13-22 | Sends an H0 and waits for an H1. |
| HandshakeObjects.Endpoint.ReadRemoteID | mrudp/Handshake.cpp:28-36 | Pops the peer's short id, zero when the packet is too short. |
| HandshakeObjects.Endpoint.OnHandshakeComplete | mrudp/Handshake.cpp:83-90 | Notes the peer's id and completes once. |
| HandshakeObjects.Endpoint.HandlePacket | mrudp/Handshake.cpp:24-112 | The four branches, answers before state changes. |
| Schedulers.DeadlineBounds | mrudp/Scheduler.cpp:83-95 | Every deadline is later than the requested time and the last pass, by at most 10 ms. |
| Schedulers.DeadlineExact | mrudp/Scheduler.cpp:83-95 | Deadlines fall on a grid of 10 ms (one ms early for a time already over), less than a ms kept as asked for. |
| Schedulers.InsertExact | mrudp/Scheduler.cpp:97-98 | A node goes behind all that are not later and before all that are. |
| Schedulers.ApplyKeeps | mrudp/Scheduler.cpp:42-120 | Allocating, freeing and scheduling keep each timeout queued once or holding its node, timely, and the timer early enough. |
| Schedulers.ScheduleWakes | mrudp/Scheduler.cpp:69-120 | Updating the timer only when the front changed is enough to wake for the earliest deadline. |
| Schedulers.ScheduleTight | mrudp/Scheduler.cpp:69-120 | While the timer is set for exactly the earliest deadline, scheduling keeps it so, also when the front is moved back. |
| Schedulers.PassLaws | mrudp/Scheduler.cpp:122-154 | A pass ends whatever its callbacks and other threads do, runs each timeout at most once, in order of deadlines, strictly after the time asked for, and leaves nothing due. |
| Schedulers.PassRunsAllDue | mrudp/Scheduler.cpp:129-145 | Left alone, a pass runs exactly the due timeouts. |
| Schedulers.RunTimeoutsReturn | mrudp/Scheduler.cpp:134-144 | Each timeout a pass runs, by what is done from its own callback on: untouched, it holds its node at the end; rescheduled last, by its callback or by anybody, it is queued for the rounded time; not freed, it is one or the other. |
| Schedulers.RunsKeep | mrudp/Scheduler.cpp:42-166 | In every run, with any operations while callbacks run and between a pass and its timer, a timeout is queued or holds its node exactly if it was allocated and not freed since, a queued one is queued once and timely; and unless the gap of the last pass was unsafe, the timer is set no later than the earliest deadline. |
| Schedulers.TimeoutsAreKept | mrudp/Scheduler.cpp:42-154 | In every run from the start a timeout is queued or holds its own node, and not both, exactly if it was allocated and has not been freed since: none is lost by running. |
| Schedulers.GapExact | mrudp/Scheduler.cpp:156-166 | Whatever is allocated, freed and scheduled between the end of a pass and its timer update, the earliest wake-up is kept if and only if every schedule that nothing later undoes is not before the front the pass saw. |
| Schedulers.FireExact | mrudp/Scheduler.cpp:122-166 | A whole pass leaves the timer early enough if and only if its gap was safe. |
| Schedulers.GapWitness | mrudp/Scheduler.cpp:156-166 | A run from the start that ends with a wake-up lost for a second. |
| SchedulerObjects.Scheduler.AllocateTimeout | mrudp/Scheduler.cpp:42-56 | A new timeout holds its own node. |
| SchedulerObjects.Scheduler.FreeTimeout | mrudp/Scheduler.cpp:58-67 | Takes the node out of the queue if it is there. |
| SchedulerObjects.Scheduler.Enqueue | mrudp/Scheduler.cpp:69-105 | Re-queues with the rounded deadline and reports whether the front changed. |
| SchedulerObjects.Scheduler.ScheduleTimeout | mrudp/Scheduler.cpp:107-120 | Updates the timer exactly when the front changed. |
| SchedulerObjects.Scheduler.Turn | mrudp/Scheduler.cpp:134-144 | One turn of the loop runs the front, gives it its node back, keeps what its callback schedules, and strictly lowers the number of due nodes. |
| SchedulerObjects.Scheduler.ProcessPass | mrudp/Scheduler.cpp:122-154 | The loop ends and computes the pass. |
| SchedulerObjects.Scheduler.Process | mrudp/Scheduler.cpp:156-166 | Runs a pass and then sets the timer for the front the pass saw, whatever came in between. |
| CircularBuffers.Segments | mrudp/base/detail/CircularBuffer.hpp:56-84 | One or two segments inside the buffer that together cover the data, in order, from any position. |
| CircularBuffers.PlaceAppends | mrudp/base/detail/CircularBuffer.hpp:120-136 | Writing behind the live bytes appends exactly the data, wrapped or not. |
| CircularBuffers.GrowWrapped | mrudp/base/detail/CircularBuffer.hpp:98-109 | Growing a wrapped or full buffer leaves its contents unchanged, also when the moved part is longer than the room gained. |
| CircularBuffers.CircularBuffer.Grow | mrudp/base/detail/CircularBuffer.hpp:86-113 | Counts the new bytes, keeps the contents and makes room for them. |
| CircularBuffers.CircularBuffer.Enlarge | mrudp/base/detail/CircularBuffer.hpp:91-110 | The recursive write happens with room to spare, so it never resizes again. |
| CircularBuffers.CircularBuffer.CopyIn | mrudp/base/detail/CircularBuffer.hpp:120-136 | The segment loop places the data and sets the end. |
| CircularBuffers.CircularBuffer.Write | mrudp/base/detail/CircularBuffer.hpp:115-137 | Appends exactly its data, or zeros for a missing source. |
| CircularBuffers.CircularBuffer.Peek | mrudp/base/detail/CircularBuffer.hpp:139-152 | Returns exactly the front. |
| CircularBuffers.CircularBuffer.Skip | mrudp/base/detail/CircularBuffer.hpp:163-173 | Drops exactly the front. |
| CircularBuffers.CircularBuffer.Read | mrudp/base/detail/CircularBuffer.hpp:154-161 | Returns and drops exactly the front. |
| CircularBuffers.ReplayOnRing | mrudp/base/detail/CircularBuffer.hpp:17-174 | For any mix of operations a ring buffer returns and holds what a plain sequence would. |
| Proxies.DispatchRoundTrip | mrudp/Proxy.cpp:272-329 | A batch is dispatched as exactly the messages it was made of, in order. |
| Proxies.CallsAreRepeated | mrudp/Proxy.cpp:285-420 | What one proxy wants done the other one does: the same opens, closes and sends, with the same ids, addresses, data and reliability, in the same order. |
| Proxies.DataSizeExact | mrudp/Proxy.cpp:199-212 | A data message arrives whole if and only if it is shorter than 2^16 bytes. |
| Proxies.DataCut | mrudp/Proxy.cpp:272-329 | Of a data message of any size as many bytes are handed over as its size field says, and the rest is parsed as further messages. |
| Proxies.DataSizeWitness | mrudp/Proxy.cpp:199-212 | A message of 65536 bytes arrives empty and its first bytes are taken for a close message. |
| Proxies.PayloadRoundTrip | mrudp/Proxy.cpp:541-581 | Compressed or raw, a payload unpacks to the queued bytes; it is compressed exactly when the level is positive and zlib succeeds. |
| Proxies.ParseWires | mrudp/Proxy.cpp:587-636 | Parsing any beginning of the stream dispatches whole batches in order and keeps the rest; parsing all leaves nothing. |
| Proxies.FramingIsTransparent | mrudp/Proxy.cpp:522-637 | For every queuing, every batching into ticks and every cutting into chunks the far side dispatches a prefix of the queued messages, and all of them once everything has arrived and a tick has run. |
| Proxies.TicksFinish | mrudp/Proxy.cpp:522-637 | From every reachable state one tick of the sender, the arrival of what is on the wire and one tick of the receiver dispatch all that was queued. |
| ProxyObjects.Proxy.SendQueue | mrudp/Proxy.cpp:199-212 | Appends one encoded message. |
| ProxyObjects.Proxy.ReceiveQueue | mrudp/Proxy.cpp:214-223 | Appends the chunk to the ring buffer. |
| ProxyObjects.Proxy.TickSend | mrudp/Proxy.cpp:535-583 | Sends one packet for all queued bytes when the wire is ready, else nothing. |
| ProxyObjects.Proxy.OnWirePacket | mrudp/Proxy.cpp:272-329 | On any bytes the loop ends and dispatches the model's events. |
| ProxyObjects.Proxy.TakePacket | mrudp/Proxy.cpp:598-634 | Takes exactly one packet off the ring buffer and unpacks it. |
| ProxyObjects.Proxy.TickReceive | mrudp/Proxy.cpp:587-636 | The loop on the ring buffer ends and computes the parse. |
| Sockets.FreeExists | mrudp/Socket.cpp:34-45 | A free short id exists exactly while fewer than 65535 are taken. |
| Sockets.IsFullExact | mrudp/Socket.cpp:29-45 | After any legal run, isFull is right about whether an id is free if and only if fewer than 65534 are taken. |
| Sockets.IsFullWitness | mrudp/Socket.cpp:29-45 | Legal runs that end with isFull true and an id free, and with isFull false and none free. |
| Sockets.LookupsAgree | mrudp/Socket.cpp:204-225 | Both lookups give the same live connection; live short ids are distinct and non-zero; no lookup gives a dead connection. |
| Sockets.InsertKeeps | mrudp/Socket.cpp:121-126 | Inserting a connection with new ids keeps the indexes in agreement and every live connection live. |
| Sockets.EraseExact | mrudp/Socket.cpp:128-151 | Erasing keeps the indexes in agreement if and only if the two entries it removes belong together. |
| Sockets.EraseKeeps | mrudp/Socket.cpp:128-151 | Erasing a live connection removes it alone and frees its short id. |
| Sockets.EraseTwiceWitness | mrudp/Socket.cpp:128-151 | Why that precondition is needed: erasing a connection a second time would break another one that was given its short id. |
| Sockets.IndexesAgree | mrudp/Socket.cpp:121-225 | After any run in which ids come from the allocator and each connection is inserted and erased once, the two indexes agree. |
| Sockets.Socket.AcquireShortConnectionID | mrudp/Socket.cpp:34-45 | Ends with the first free non-zero id at or after the random start, cyclically, and reserves it. |
| Sockets.Socket.InsertConnection | mrudp/Socket.cpp:121-126 | Sets both entries. |
| Sockets.Socket.EraseConnection | mrudp/Socket.cpp:128-151 | Removes both entries and releases the short id. |
| Sockets.Socket.Connect | mrudp/Socket.cpp:79-119 | A new live connection beside all old ones, or, if it does not open, the tables as they were. |
| Sockets.Socket.Establish | mrudp/Socket.cpp:284-306 | Reserving, inserting and opening; a connection that does not open is erased without a trace. |
| Sockets.Socket.FindOrGenerate | mrudp/Socket.cpp:227-330 | Finds the known connection, or makes one exactly for a wanted first packet with a long id on a socket that is not full; one the accept handler refuses is not returned but stays in both tables. |

## Left out

- Transport.InOrderExactlyOnce: holds under the id assumptions stated above, because the window bounds the number of unacknowledged packets and not the span of their ids.
- Progress.CanDeliver: says nothing of a close frame with other frames behind it, except that more than 2^15 of them are too many (`Progress.CannotDeliver`); whether fewer can be delivered depends on how they lie in packets.
- Delivery.GracefulCloseIsComplete: calls of send and close are atomic; a send that has passed its status check while another thread closes is not modelled.
- Proxies.FramingIsTransparent: for messages as the proxies make them and batches below 2^32 bytes; malformed streams, which the source only asserts against, are excluded by `Sound`.
- CompressedReceivers.CompressedReceiver.ProcessCompressedSubframes: a record header that is cut off ends the loop, where the source would read on.
- Senders.Sender.SendReliably: asks for an open retrier with room and the next ids unused; a duplicate id, which the retrier asserts against, is not covered.
- Senders.Sender.SendOne: the same, for one turn of the drain loop.
- Senders.Sender.DrainLoop: the same, for the whole loop.
- Senders.Sender.SendControl: asks that the next packet id is not in use.
- Senders.Sender.Fail: the unreliable queue, which is closed too, is not part of the object.
- RetrierObjects.Retrier.OnRetryTimeout: running out of attempts closes the retrier; the rest of the failure is `Connections.Fail`.
- HandshakeObjects.Endpoint.OnHandshakeComplete: opening sender and receiver is counted; what opening does is in `Receivers` and `Pacing`.
- ReceiverObjects.Receiver.ProcessReceived: an acknowledgement frame of fewer than four bytes is ignored, where the source reads on.
- ReceiverObjects.Receiver.OnReceivePacket: an unreliable packet cut off inside a frame ends the walk, where the source has no bounds check.
- CompressedReceivers.CompressedReceiver.ProcessCompressed: a batch shorter than its own header is ignored, where the source reads on.
- ProxyObjects.Proxy.OnWirePacket: a data message that is cut off ends the loop, where the source forwards past the end and goes on parsing.
- ProxyObjects.Proxy.TickReceive: for streams without empty or too short packets, which the source only asserts against.
- ConnectionObjects.Connection.CloseReceiver: asks that the next packet id is not in use.
- ConnectionObjects.Connection.CloseByUserNow: the same.
- Senders.Sender.ProcessReliableDataQueue: asks that the next packet ids are not in use, as the retrier's own assertion does.
- Sockets.Socket.Connect: takes the random long id to be new and one short id to be free; with none free the source does not return.
- Sockets.Socket.FindOrGenerate: not for a socket with all 65535 short ids taken, where the fullness test is passed and the source does not return.
- Packets.Packet.PushData: for at most 1500 bytes; for more, the source's unsigned subtraction wraps around.
- Pacing.NeverStalls: the mode without coalescing, which processes the queue in the caller, is not covered; a failure is one step.
- Sending unreliable data: it promises no order; only its use as the carrier of acknowledgements is modelled (`Acks`).
- Network path changes and their signed challenges (mrudp/NetworkPath.cpp): the peer's address is fixed.
- Encryption (mrudp/Crypto.cpp, mrudp/imp): compiled in only when it is switched on in mrudp/Config.h.
- Probe timing (mrudp/connection/Probe.cpp): a probe is one more reliable packet without frames.
- The C interface, statistics and option merging, and the socket and thread plumbing: nothing is said of handles, counters, address handling or which thread runs what.
- The proxy's connection bookkeeping, mode detection and id counter: nothing is said of which connection an event reaches, nor that ids are not reused.
- `popFrame` (mrudp/Packet.inl): it has no caller.
- Two threads processing the same schedule in the mode without coalescing, and delays changed while a deadline is set.
