# PeerRPC, verified

PeerRPC runs many RPC streams over one ordered byte channel. This project models the parts of it that are written by
hand, in Dafny, and proves what they are for: that multiplexing, chunking and segmentation cannot be noticed by a stream,
that the Go server's goroutines put only well-formed conversations on the wire, that payloads come out as they went in,
that ids and addresses survive being printed, and that the signaling store is safe under every interleaving.

Check it with `dafny verify dfyconfig.toml --resource-limit 2000000 --verification-time-limit 0`.

## How it is built

| module | what it models |
|---|---|
| Wire, GoCodec | length prefix, bounds, Go's tolerant prefix stripping, Go's stream reader and writer |
| Segmentation | the incremental decode loops of TypeScript and Rust, over an arbitrary codec |
| Reassembly | splitting payloads into chunks, and the three reassemblers |
| AsyncQueues | the TypeScript AsyncQueue as a class, refined by a log |
| Frames, Sending, Receiving | frames of both directions, the send paths, and what a Data frame does at the far end |
| TsServer, TsClient, TsCalls | routing by sequence, call endings, what a caller sees of its call |
| RequestPipeline, ResponsePipeline | the end-to-end theorems for both directions |
| Unary | how a TypeScript unary call collects its response |
| GoServer, GoServerSaid, GoServerWire, GoServerDelivery, GoServerEof, GoServerWhole | the Go multiplexer as a step machine of serve loop, handlers, receivers, writer; what it is told, what it does of it, and each operation by itself |
| GoClient, GoCalls, GoClientEof, GoClientWhole, GoReplies | sequence numbers, the Attach loop against its callers, how they end, and the way from handler to caller over one connection |
| Base58 | the in-place encoder, the big-integer decoder, the bijection |
| RustServer, RustSends, RustWhole | the Rust serve loop against handlers that may send from several tasks, and what a receiver makes of their messages |
| Store, StoreRuns, StoreWhole, StoreOrphans | the in-memory signaling store, one critical section at a time |
| Relay, Target, TargetGrammar, Dial | byte pumps, target URIs and their grammar, the offerer's answer and candidates |
| Sequences, Mailboxes | subsequences; queues that drop what finds no room |
| Serializer | a serializer that meets what is assumed of the protobuf and query libraries |

Sequential code that changes objects step by step is a class or a loop, proved against a function of its old state.
Goroutines and promises are step functions over a state value; a run is any list of steps, and a step that is not
enabled changes nothing, so a theorem over all lists covers every interleaving. Fields such as `log`, `processed`,
`frames` or `offers` record history; no step decides on them. What such a machine was asked to do is told a second
time, from the list of steps (`History`, `SaidBy`, `HeardOf`, `Added` and others), and the theorems are about that; the
modules called Whole say what an operation comes to when nothing interferes, so that no step can be left out unseen.

## What the models take as given

- The protobuf codec is a pair of functions. RequestPipeline and ResponsePipeline assume that it decodes what it encoded
  and that a Data or Begin frame is as long as its schema says (varint lengths included), and that frames whose size
  the library does not bound (the method path and metadata of a Call, the message and trailer of an End) fit the frame
  bound. Segmentation and Relay assume only that the frames in hand decode to themselves and fit. A serializer that
  meets these assumptions is in Serializer (`RequestsCanBeMet`, `ResponsesCanBeMet`).
- The data channel is a reliable FIFO of byte messages; for TypeScript and Rust receivers it may cut them anywhere.
- A client uses a sequence for at most one Call, and a Go handler sends from one goroutine and receives from one (they may differ).
  Rust handlers may send from any number of tasks; where order matters the theorem says so.
- For Go's query strings, `url.Values.Encode` and `url.ParseQuery` invert each other (`Serializer.QueriesCanBeMet`).

## Where code and comments differ

The model follows the code in each of these.

- A TypeScript channel keeps an undecodable head in its buffer, so the channel is dead from then on
  (`Segmentation.BadHeadStallsForever`); Rust clears its buffer.
- A TypeScript unary call never resolves when its response and its End are both dispatched before the continuation of
  `recv` runs (`Unary.UnaryResolvesExactly`).
- Go's ServerStream.Send is documented to return before the bytes are on the wire; it waits for the writer
  (`GoServerWire.SendReturnsOnceWritten`).
- Go's ServerStream.Recv is meant to drain queued data before EOF; it does, exactly unless a payload is pushed while it
  is already waiting (`GoServerEof.EofOvertakesExactly`, `GoServerEof.EofIsTheEndExactly`).
- Go's ClientStream.Recv relies on queued data being visible to its first look before the End arrives; the End and a
  reply may both arrive while it already waits, and then either may be picked. A unary call does not look first, so it
  may return its status without its reply (`GoClientEof.EndOvertakesExactly`, `GoClientEof.UnaryCanMissItsReply`).
- Go's deliver is documented to wait until the stream consumes or ends; only the first can happen
  (`GoClient.OnlyTheReaderReleases`), so one unread call holds up all others and the failure handling too.
- A relayed RPC is documented as bit-identical to a direct one; the relay drops the length prefix, which Go receivers
  tolerate and TypeScript receivers do not (`Relay.GoReceivesTheSame`, `Relay.TsReceivesNothing`).
- The store's registry loses a service with a peer in it when a Join goes on in an object that a Leave has collected
  meanwhile; the peer cannot be reached or removed any more (`StoreOrphans.OrphansComeFromOneRace`,
  `StoreOrphans.StrandedForever`).
- Rust's ServerStream takes the header flag before it queues the Begin, so of two tasks sending at once the second can
  put its Data first (`RustServer.RaceBreaksGrammarExactly`); and the chunks of two large messages may mix, which loses
  messages (`RustSends.MixingLosesExactly`).
- Go's Target.String is documented to round-trip and its Signal field to accept a full URL; such a Signal does not come
  back (`Target.GoRoundTrip`).
- Go's tolerant stripping does not undo prefixing for the empty payload (`Wire.StripUndoesPrefix`).

## Model

| member | source | states |
|---|---|---|
| RequestPipeline.RequestsArrive | peerrpc-ts/packages/peerrpc-rpc/src/index.ts:214-313 | told from the acts alone: a stream is owed the payload it was opened with, unless empty, and every payload sent while its last operation was written and it was not half-closed. For every run of concurrent calls whose frames interleave at awaits, every cut of the byte stream and every interleaving with the handlers' receives: what a handler gets is a prefix of what its stream is owed, whole and in order; null comes only after all of it and only after the half-close; once every byte has arrived nothing owed is missing |
| RequestPipeline.NothingIsLostExactly | peerrpc-ts/packages/peerrpc-rpc/src/server.ts:44-50 | once every byte has arrived and no frame is pending, the server's queue has taken everything that the acts handed over on the stream if and only if it was not opened with an empty payload |
| RequestPipeline.RunFollowsActs | peerrpc-ts/packages/peerrpc-rpc/src/index.ts:258-465 | the k-th call opened is stream 2k + 1, and in every run a stream's frames on the wire are, as far as written, those its caller's own acts take: opening frames, the frames of each send, a half-close; what is sent while an operation is unfinished or after the half-close is not |
| RequestPipeline.EveryReceiveIsIssued | peerrpc-ts/packages/peerrpc-rpc/src/queue.ts:42-52 | once its stream is known every receive of a handler gets a ticket, whatever arrives in between |
| ResponsePipeline.ResponsesArrive | peerrpc-ts/packages/peerrpc-rpc/src/index.ts:258-370 | the same from handler to caller, who is owed every response but an empty first one, for calls that are opened at any point while responses of others are in flight or half received, before the first response frame of their own has come in; the caller's final status is the one the handler ended with, set only after everything owed is queued |
| ResponsePipeline.NothingIsLostExactly | peerrpc-ts/packages/peerrpc-rpc/src/index.ts:328-331 | for the same calls: once every byte has arrived and no frame is pending, the caller's queue has taken every response the acts handed over if and only if the first one was not empty |
| ResponsePipeline.RunFollowsActs | peerrpc-ts/packages/peerrpc-rpc/src/server.ts:68-131 | in every run a stream's frames on the wire are, as far as written, those its handler's own acts take: the frames of each reply, the first with its Begin, and the End of its return or rejection |
| ResponsePipeline.EveryReceiveIsIssued | peerrpc-ts/packages/peerrpc-rpc/src/queue.ts:42-52 | once its call is open every receive of a caller gets a ticket |
| ResponsePipeline.SeesItsFramesSince | peerrpc-ts/packages/peerrpc-rpc/src/index.ts:258-322 | a client that starts empty and is fed segments, receive calls and openings in any order sees, per call, exactly the frames of that call that come out of the bytes fed after its opening, the buffered part of a frame included |
| RequestPipeline.RunKeepsClient | peerrpc-ts/packages/peerrpc-rpc/src/index.ts:214-240 | at every point of every run each call's frames on the wire carry exactly the payloads sent so far, with the frames still pending completing the last of them |
| RequestPipeline.NodeFollowsFrames | peerrpc-ts/packages/peerrpc-transport/src/index.ts:221-242 | a server endpoint fed segments and receive calls in any order sees, per stream, the frames of that stream in wire order |
| ResponsePipeline.RunKeepsServer | peerrpc-ts/packages/peerrpc-rpc/src/server.ts:68-131 | the same for the frames of each handler: Begin, Data and End on the wire carry what was handed over |
| Sending.SendPayload | peerrpc-ts/packages/peerrpc-rpc/src/index.ts:274-313 | whatever other streams write in between, the sequence's own share of the wire grows by exactly the frames of this payload, in order |
| Sending.ClientStream.Send | peerrpc-ts/packages/peerrpc-rpc/src/index.ts:421-455 | refused after half-close; else the same frames as sendPayload |
| Sending.ClientStream.CloseSend | peerrpc-ts/packages/peerrpc-rpc/src/index.ts:458-465 | one half-close frame the first time, nothing afterwards |
| Sending.ServerStream.Send | peerrpc-ts/packages/peerrpc-rpc/src/server.ts:68-118 | the first send adds a Begin, carrying the payload when it is small; later sends add Data only |
| Sending.ServerStream.EndWith | peerrpc-ts/packages/peerrpc-rpc/src/server.ts:121-131 | one End frame with the status |
| Sending.InvokeClientStreaming | peerrpc-ts/packages/peerrpc-rpc/src/index.ts:214-240 | a Call with an inline payload up to the inline bound, else Call followed by Data frames |
| Sending.InvokeUnaryRequest | peerrpc-ts/packages/peerrpc-rpc/src/index.ts:113-155 | Call, payload and half-close of a unary request, in this order on its sequence |
| TsServer.Server.HandleFrame | peerrpc-ts/packages/peerrpc-rpc/src/server.ts:199-247 | the whole new state of routing map, queues and partial messages is OnFrame of the old one; an unknown method is answered with an End on its own sequence |
| TsServer.FrameTouchesOneStream | peerrpc-ts/packages/peerrpc-rpc/src/server.ts:199-247 | a frame changes what its own sequence sees and nothing any other sequence sees |
| TsServer.DemuxCommutes | peerrpc-ts/packages/peerrpc-rpc/src/server.ts:199-247 | after any frame list a stream is in the state its own frames alone produce |
| TsClient.Client.HandleFrame | peerrpc-ts/packages/peerrpc-rpc/src/index.ts:315-370 | the whole new client state is Dispatch of the old one |
| TsClient.Client.OpenStream | peerrpc-ts/packages/peerrpc-rpc/src/index.ts:258-272 | a fresh odd sequence with empty queue and no ending |
| TsClient.Client.FailAllStreams | peerrpc-ts/packages/peerrpc-rpc/src/index.ts:392-402 | every unfinished call in the map is ended with UNAVAILABLE, its queue closed, and the map emptied |
| TsClient.DemuxCommutes | peerrpc-ts/packages/peerrpc-rpc/src/index.ts:315-370 | two clients that agree on sequence s still agree on it (queue, header, trailer, status, partial message) after one has dispatched all frames and the other only those of s |
| TsCalls.CallShowsItsFrames | peerrpc-ts/packages/peerrpc-rpc/src/index.ts:315-402 | told from the events alone: after any openings, frames, receives and transport failures a call is done if and only if its End came since its opening or the transport closed on it first, with the status that says so; header and trailer have, key by key, the values of the last of its own Begin or End frames that names the key; no other frame leaves a trace |
| TsClient.CallsEndOnce | peerrpc-ts/packages/peerrpc-rpc/src/index.ts:352-402 | through any list of frames, opens and failures a call ends at most once and an ended call keeps its status, payloads and trailer |
| TsClient.FailAllEndsEverything | peerrpc-ts/packages/peerrpc-rpc/src/index.ts:392-402 | after a failure no opened call is unfinished |
| Unary.UnaryResolvesExactly | peerrpc-ts/packages/peerrpc-rpc/src/index.ts:372-390 | an ended unary call whose continuation has run resolves if and only if no response came or the continuation ran, with collecting begun and a payload there, before the call ended; then with the first response and the final status; otherwise nothing that can still happen resolves it |
| Unary.UnaryCanHang | peerrpc-ts/packages/peerrpc-rpc/src/index.ts:372-390 | the run where response and End are dispatched before the continuation: the promise stays pending |
| Receiving.Accept | peerrpc-ts/packages/peerrpc-rpc/src/index.ts:334-351 | one Data content reaches queue and partial-message table as Absorb says |
| Receiving.ContentsDeliver | peerrpc-ts/packages/peerrpc-rpc/src/server.ts:220-237 | the frames of one payload add exactly that payload to an open queue and leave no partial message |
| AsyncQueues.AsyncQueue.Push | peerrpc-ts/packages/peerrpc-rpc/src/queue.ts:19-26 | state after push: hand over to the first waiter, else buffer, else (closed) nothing |
| AsyncQueues.AsyncQueue.Close | peerrpc-ts/packages/peerrpc-rpc/src/queue.ts:32-39 | state after close |
| AsyncQueues.AsyncQueue.Recv | peerrpc-ts/packages/peerrpc-rpc/src/queue.ts:42-52 | state after recv, and the ticket of its promise |
| AsyncQueues.HistoryMatchesLog | peerrpc-ts/packages/peerrpc-rpc/src/queue.ts:13-53 | after any list of operations the queue is consistent (items and waiters never both non-empty, no waiter once closed) and its log is the items pushed before the first close |
| AsyncQueues.RefinesLog | peerrpc-ts/packages/peerrpc-rpc/src/queue.ts:13-53 | after any list of operations the k-th recv has resolved to the k-th item pushed before close if there is one, to null exactly if the queue is closed without it, and is pending otherwise |
| Segmentation.Channel.HandleMessage | peerrpc-ts/packages/peerrpc-transport/src/index.ts:221-242 | frames emitted and bytes kept are those of Drain on the kept and new bytes |
| Segmentation.SegmentationIndependence | peerrpc-ts/packages/peerrpc-transport/src/index.ts:221-242 | for any bytes, feeding them in any pieces gives the frames and remainder of feeding them at once |
| Segmentation.CompleteStream | peerrpc-ts/packages/peerrpc-protocol/src/index.ts:90-139 | encodings of frames within the bound, cut anywhere, come out as exactly those frames with nothing left |
| Segmentation.PartialStream | peerrpc-ts/packages/peerrpc-protocol/src/index.ts:90-139 | any first part of the stream yields a first part of the frames and keeps a proper prefix of the next encoding |
| Segmentation.DecodeWritten | peerrpc-ts/packages/peerrpc-protocol/src/index.ts:123-139 | decoding a written frame takes exactly its bytes, whatever follows |
| Segmentation.DecisionIsFinal | peerrpc-ts/packages/peerrpc-protocol/src/index.ts:123-139 | more bytes never change a decision other than to wait |
| Segmentation.BadHeadStallsForever | peerrpc-ts/packages/peerrpc-transport/src/index.ts:229-241 | once an oversized or malformed head is in the buffer no later bytes ever produce a frame: the head stays |
| Segmentation.OnlyFramesBeforeBadHead | peerrpc-ts/packages/peerrpc-transport/src/index.ts:221-242 | good frames in front of an undecodable head come out exactly and nothing behind it does, for every cut of the bytes |
| Segmentation.OversizedHead | peerrpc-ts/packages/peerrpc-protocol/src/index.ts:129-131 | a length just over the bound is such a head, whatever the codec |
| Segmentation.ClearingAgrees | peerrpc-rs/rpc/src/lib.rs:325-345 | the loop that clears its buffer on an error emits the same frames as the one that does not, on every stream without a bad head |
| Segmentation.ClearingRecovers | peerrpc-rs/rpc/src/lib.rs:325-345 | good frames before an undecodable head and good frames in the messages after the one that completes it all come out of the clearing loop, and nothing else |
| Wire.LengthPrefix | peerrpc-ts/packages/peerrpc-protocol/src/index.ts:90-96 | the buffer filled is the four length bytes and the payload |
| Wire.StripUndoesPrefix | peerrpc-go/transport/channel.go:174-182 | stripping undoes prefixing, whatever follows in the message, if and only if the payload is not empty |
| Wire.StripKeepsTagged | peerrpc-go/transport/channel.go:253-263 | a payload within the frame bound that starts with a non-zero byte is never mistaken for a prefixed one |
| GoCodec.Reader.Next | peerrpc-go/protocol/codec.go:53-76 | result and reader position are those of ReadFrame on the bytes left |
| GoCodec.ReadUndoesWrite | peerrpc-go/protocol/codec.go:35-76 | reading a written frame returns the payload and leaves the rest up to the bound, and reports an oversized frame above it |
| GoCodec.ReadersAgree | peerrpc-go/protocol/codec.go:53-76 | on every buffer the Go reader takes, refuses or runs short exactly where the incremental decoder takes, refuses or waits |
| Reassembly.Reassembler.Reassemble | peerrpc-ts/packages/peerrpc-transport/src/index.ts:190-219 | new table and returned payload are Fold of the old table; the returned buffer belongs to no sequence any more, so no later chunk writes it |
| Reassembly.Reassembler.EntryOrInsert | peerrpc-rs/transport/src/reassembler.rs:33-45 | the entry-or-insert-then-replace form reaches the same entry as the test-and-set form of Go and TypeScript |
| Reassembly.SplitThenReassemble | peerrpc-go/transport/channel.go:326-347 | chunks of one payload in any order among chunks of other sequences: the payload is delivered exactly once, on the last chunk and no earlier, and no partial message is left |
| Reassembly.AnyOrder | peerrpc-go/transport/channel.go:326-347 | the same for one sequence, from any partial message of another size or none |
| Reassembly.StaleBytes | peerrpc-go/transport/channel.go:326-347 | when bytes of an abandoned message of the same size are still counted, the payload comes out once, whole and with nothing left over, if and only if those bytes are fewer than its last chunk holds |
| Reassembly.SequencesAreIndependent | peerrpc-go/transport/channel.go:326-347 | what a sequence gets out of any interleaving is what its own chunks give |
| Reassembly.SplitPartitions | peerrpc-go/rpc/stream.go:145-167 | the chunks cut from a payload carry its total, lie inside it, cover every byte and add up to its length |
| Frames.DataFramesFit | peerrpc-go/transport/channel.go:46-70 | every Data frame of a payload below 2^31 with chunks of at most 255 KiB is at most 262144 bytes with its prefix; total and offset fit int32 |
| Base58.BufferSuffices | peerrpc-go/peerrpc/base58.go:61-62 | 256^n <= 58^(n*138/100+1) for every n |
| Base58.MultiplyAdd | peerrpc-go/peerrpc/base58.go:71-78 | one pass over the buffer: carry and digits together hold 256 times the old value plus the byte |
| Base58.NoCarry | peerrpc-go/peerrpc/base58.go:71-78 | after each byte the final carry is 0, so the buffer holds the exact value |
| Base58.Convert | peerrpc-go/peerrpc/base58.go:61-78 | the buffer, of the computed size, holds the value of all bytes in base 58 |
| Base58.EncodeBase58 | peerrpc-go/peerrpc/base58.go:45-94 | the string is Encode of the bytes |
| Base58.DecodeBase58 | peerrpc-go/peerrpc/base58.go:102-129 | the result is Decode of the string: bytes, or an error for a character outside the alphabet |
| Base58.DecodeInvertsEncode | peerrpc-go/peerrpc/base58.go:45-129 | decode(encode(b)) = b for every byte string, leading zeros included |
| Base58.EncodeInvertsDecode | peerrpc-go/peerrpc/base58.go:45-129 | a string decodes if and only if it is over the alphabet, and encoding the result gives it back, leading '1's included |
| Base58.RebaseInverts | peerrpc-go/peerrpc/base58.go:45-129 | between any two bases, converting digits there and back with leading zeros kept one for one is the identity |
| Base58.PeerIdsAreInjective | peerrpc-go/peerrpc/options.go:124 | equal derived peer ids come from equal keys |
| Base58.IndexTable.constructor | peerrpc-go/peerrpc/base58.go:27-34 | the table holds each letter's digit and -1 elsewhere |
| GoServer.StepKeepsMux | peerrpc-go/rpc/server.go:147-382 | every atomic step of serve loop, handlers, receivers and writer keeps: frames handed over plus frames still to hand over are the handler's script; the map holds a stream until End or cancel; a rejected sequence has one End |
| GoServer.RunKeepsMux | peerrpc-go/rpc/server.go:147-382 | the same over every run |
| GoServerWire.ResponseGrammar | peerrpc-go/rpc/server.go:165-307 | under every interleaving the wire projected to a sequence is a prefix of what its handler was told to say (header, payloads handed to its sends in order, End of its return), hence of (Begin Data*)? End; End is last and at most one; Begin is first unless the stream was cancelled; an unknown method gets at most an End, a sequence without Call nothing |
| GoServerSaid.ScriptIsWhatWasSaid | peerrpc-go/rpc/stream.go:128-168 | in every run what a handler commits itself to write is what the acts handed to it: the payloads of its sends in order, the header of the send or return that came first, the End it returned with |
| GoServerSaid.EndsAreHeeded | peerrpc-go/rpc/server.go:345-362 | in every run a stream is half-closed if and only if a half-close was read while it was in the map; its context has ended if and only if a cancel was read so, its deadline passed or its handler is done; once the serve loop is past the cancel the stream is out of the map |
| GoServerWire.CancelledStartsNothing | peerrpc-go/rpc/server.go:345-362 | once a cancel has been read for a stream in the map and the serve loop is past it, its context has ended and no further send is begun, in any continuation; at most the one send past its lookup goes through |
| GoServerWire.SendReturnsOnceWritten | peerrpc-go/rpc/server.go:258-275 | whenever no send of a handler is under way everything it was told to say is on the wire, complete and in order |
| GoServerWhole.SendWrites | peerrpc-go/rpc/stream.go:128-168 | a send on a live stream that nothing interferes with writes a Begin if there was none and the frames of its payload, in order, and leaves the handler free to send |
| GoServerWhole.ReturnWrites | peerrpc-go/rpc/server.go:277-307 | a return that nothing interferes with writes a Begin if the stream is in the map and had none, then the End; the stream is out of the map and its context ended |
| GoServerWhole.RejectionWrites | peerrpc-go/rpc/server.go:165-175 | a Call of an unknown method is answered by its End, and the serve loop reads on |
| GoServerWhole.PayloadArrives | peerrpc-go/rpc/server.go:317-341 | a payload for a stream in the map joins its channel if there is room, and the serve loop reads on |
| GoServerWhole.ReceiveReturns | peerrpc-go/rpc/stream.go:97-119 | a Recv takes the first payload that waits; finding none it waits, and returns with the next one, with EOF after a half-close or with an error once the context has ended |
| GoServerDelivery.DeliveryIsPrefix | peerrpc-go/rpc/stream.go:97-119 | while a stream's context is live its handler has received a prefix of the payloads sent on it; never more than a subsequence after; at most 16 wait; nothing is missing once loop and channel are empty |
| GoServerDelivery.RequestsArriveInOrder | peerrpc-go/rpc/client.go:239-265 | with the frames a Go client sends for its payloads, half-close or cancel anywhere: the handler has received a first part of those payloads, and all of them once all is read and taken out |
| GoServerDelivery.RunKeepsRouted | peerrpc-go/rpc/server.go:317-341 | payloads routed to a stream are those its own frames carry, complete while it is in the map |
| GoServerEof.EofOvertakesExactly | peerrpc-go/rpc/stream.go:97-119 | in every run a Recv returns EOF over queued payloads if and only if one was pushed between its own first look and its return |
| GoServerEof.EofIsTheEndExactly | peerrpc-go/rpc/stream.go:97-119 | if the client sends no Data after its half-close and the context is live, a Recv that returns EOF leaves nothing of what was sent if and only if nothing was pushed since its first look; so always when the half-close was processed before the Recv began |
| GoServerEof.EofCanOvertakeData | peerrpc-go/rpc/stream.go:108-118 | a run at whose end a waiting Recv may return EOF over a queued payload, in a live context |
| GoClient.Allocator.NextSeq | peerrpc-go/rpc/client.go:117-120 | the k-th number is Sequence(k), through every wrap of the 32-bit counter |
| GoClient.SequencesCycle | peerrpc-go/rpc/client.go:109-120 | every number is odd and in 1..2^31-1, and two allocations collide if and only if a multiple of 2^30 lies between them |
| GoClient.EndingIsFinal | peerrpc-go/rpc/client.go:155-197 | through any continuation of any run a call ends at most once and its result never changes |
| GoClient.FailureEndsEverything | peerrpc-go/rpc/client.go:185-197 | after failAll the map is empty and every call opened before has ended or was given up by its caller |
| GoClient.OnlyTheReaderReleases | peerrpc-go/rpc/client.go:177-182 | while the Attach loop waits in deliver, only the receiver of that very call can release it: the end case of its select is never ready |
| GoClient.RepliesArriveInOrder | peerrpc-go/rpc/client.go:123-182 | until sequence numbers come round, what a call received, what waits and what is in hand are exactly the payloads of its own frames, in order |
| GoCalls.CallShowsItsFrames | peerrpc-go/rpc/client.go:123-197 | in every run a call's header has, key by key, all values its own Begin frames give the key, in order, and its trailer those of its End; its result is its End's status if that was found, and the failure of the transport if it ended without |
| GoClientWhole.ReplyArrives | peerrpc-go/rpc/client.go:123-182 | a payload for a call in the map joins its channel if there is room, and the Attach loop reads on |
| GoClientWhole.BeginArrives | peerrpc-go/rpc/client.go:137-145 | a Begin for a call in the map adds its header, and its inline payload as a reply unless it is empty |
| GoClientWhole.EndArrives | peerrpc-go/rpc/client.go:155-170 | an End for a call in the map ends it with status and trailer, takes its number out of the map, and the Attach loop reads on |
| GoClientWhole.ReceiveReturns | peerrpc-go/rpc/client.go:465-482 | a Recv takes the first reply that waits; finding none it waits, as a unary call does at once, and returns with the next one, on the end, or when given up |
| GoClientEof.EndOvertakesExactly | peerrpc-go/rpc/client.go:465-482 | in every run a caller returns on the end of its call over queued replies if and only if one was there when it started to wait or was pushed since; and none is pushed for a caller that started after the end |
| GoClientEof.EndIsTheEndExactly | peerrpc-go/rpc/client.go:465-482 | a caller that returns on the end has every payload of its call's frames if and only if none was there when it started to wait and none was pushed since; so a Recv begun after the call had ended always has |
| GoClientEof.UnaryCanMissItsReply | peerrpc-go/rpc/client.go:321-336 | a run at whose end a unary call, which does not look first, may return its final status without the reply that is queued for it |
| GoReplies.DemuxIsProjection | peerrpc-go/rpc/client.go:123-171 | in every run the frames found to be a call's are, in order, exactly those read since it was opened that carry its number, as long as it is in the map, and a first part of them ever after |
| GoReplies.ScriptCarriesMessages | peerrpc-go/rpc/stream.go:128-168 | reading a handler's whole conversation gives exactly the messages it sent and leaves none half way |
| GoReplies.HandlerToCaller | peerrpc-go/rpc/client.go:123-182 | handler to caller: under every interleaving of a server and a client over one connection, and until sequence numbers come round, a caller has received a first part of the payloads handed to its handler's sends; once the End is found nothing is missing but what waits in the channel, and the caller's status is the one the handler returned |
| GoReplies.TogetherLinked | peerrpc-go/rpc/client.go:109-148 | in every such run the client has read a first part of what the server wrote, the server has streams only under numbers the client has handed out, and, until numbers come round, no frame read before a call was opened carries its number |
| StoreRuns.StoreIsSafe | peerrpc-go/signalserver/store/memory.go:47-132 | under every interleaving of critical sections no peers map holds a closed inbox or more than ten peers, no send meets a closed inbox, no inbox is closed twice |
| StoreRuns.DeliveryIsBestEffort | peerrpc-go/signalserver/store/memory.go:162-179 | what a peer received plus what waits is, in order, the messages other ids sent into its service during its stay, less exactly those that met 32 waiting; never one of its own id |
| StoreRuns.SendReaches | peerrpc-go/signalserver/store/memory.go:162-179 | a send is offered to exactly the inboxes in the sender's service object at that moment under another id |
| StoreWhole.LeaversAreClosedExactly | peerrpc-go/signalserver/store/memory.go:97-132 | under every interleaving an inbox is closed if and only if its peer has left and the Leave has got past closing it |
| StoreWhole.JoinTells | peerrpc-go/signalserver/store/memory.go:57-75 | a Join is told that the id exists if and only if a peer of that id stays in the service, that it is full if and only if none does and ten stay, and else gets a fresh open inbox; unless it joined nothing has changed |
| StoreWhole.WholeJoinJoins | peerrpc-go/signalserver/store/memory.go:47-80 | a Join that nothing interferes with puts the peer into the service of that name, created if need be, unless the id is there or ten are |
| StoreWhole.WholeLeaveCloses | peerrpc-go/signalserver/store/memory.go:97-132 | a Leave that nothing interferes with takes the peer out, closes its inbox and no other, and unregisters the service if and only if it is empty |
| StoreWhole.LogIsWhatWasSaid | peerrpc-go/signalserver/store/memory.go:162-179 | under every interleaving the messages recorded for a service are those the acts sent in it, in order |
| StoreOrphans.OrphansComeFromOneRace | peerrpc-go/signalserver/store/memory.go:82-94 | a step loses a service with peers from the registry if and only if it is a Join going on in an object that has been collected since the Join looked it up |
| StoreOrphans.RaceIsReachable | peerrpc-go/signalserver/store/memory.go:55-75 | a run of one Leave and one Join that ends so |
| StoreOrphans.StrandedForever | peerrpc-go/signalserver/store/memory.go:97-113 | from then on no sequence of operations takes the stranded peers out or closes their inboxes |
| StoreOrphans.WholeJoinIsExact | peerrpc-go/signalserver/store/memory.go:47-80 | an uninterrupted Join keeps: registered if and only if non-empty |
| StoreOrphans.WholeLeaveIsExact | peerrpc-go/signalserver/store/memory.go:97-132 | an uninterrupted Leave keeps it as well |
| Store.StepKeepsSafe | peerrpc-go/signalserver/store/memory.go:47-179 | each critical section keeps the heap invariant and the exclusive ownership of inboxes about to be closed |
| Store.Memory.ServiceForJoin | peerrpc-go/signalserver/store/memory.go:85-94 | new state and object are those of FindOrCreate |
| Store.Memory.InsertPeer | peerrpc-go/signalserver/store/memory.go:57-75 | duplicate id, full service or a fresh open inbox |
| Store.Memory.RemovePeer | peerrpc-go/signalserver/store/memory.go:105-113 | the peer is out, its inbox returned, emptiness told |
| Store.Memory.CloseOnce | peerrpc-go/signalserver/store/memory.go:115-120 | the inbox is closed and every other is as it was |
| Store.Memory.CollectIfEmpty | peerrpc-go/signalserver/store/memory.go:122-130 | the name is looked up again and removed only if its object has no peers |
| Store.Memory.Broadcast | peerrpc-go/signalserver/store/memory.go:162-179 | the loop over the peers, in any order, offers the message to every other peer exactly once |
| RustServer.DeliveryIsLossyExactly | peerrpc-rs/rpc/src/server.rs:163-225 | in every run a handler has received, in order, the payloads sent on its sequence less exactly those that met 16 waiting or came after it let go of its stream; it is told the end only when the channel is closed and drained; nothing is missing or lost to it if and only if none met a full queue and, once it has let go of the stream, none was waiting and none came later |
| RustServer.OneBeginOneEnd | peerrpc-rs/rpc/src/server.rs:285-333 | with any number of tasks sending on a stream at once a sequence never gets a second Begin or End on the wire, and one without handler at most an End |
| RustServer.RaceBreaksGrammarExactly | peerrpc-rs/rpc/src/server.rs:319-333 | queueing a frame keeps the conversation well formed if and only if the handler has not returned and no other send still holds the Begin |
| RustServer.RaceIsReachable | peerrpc-rs/rpc/src/server.rs:285-333 | a run of two concurrent sends in which that race stands open |
| RustServer.OrderlyIsGrammatical | peerrpc-rs/rpc/src/server.rs:285-333 | if every handler finishes one send before the next and before it returns, the wire projected to any sequence is a prefix of (Begin Data*)? End |
| RustSends.UnmixedArriveWhole | peerrpc-rs/rpc/src/server.rs:285-318 | with any number of tasks sending on a stream at once: if no chunk is queued while another task is mid-way through the chunks of its own message, a receiver of the queued frames has exactly the messages whose last frame is queued, whole and in that order |
| RustSends.OrderlyIsUnmixed | peerrpc-rs/rpc/src/server.rs:285-318 | handlers that finish one send before the next never mix, so all of the above holds for them |
| RustSends.MixingLosesExactly | peerrpc-rs/rpc/src/server.rs:300-317 | two messages of different lengths sent in chunks by two tasks, queued in any order of their chunks, are both received if and only if the chunks of one all come before those of the other; a message that was interrupted never arrives |
| RustWhole.SendQueues | peerrpc-rs/rpc/src/server.rs:285-333 | a send by a task that has none under way queues a Begin if there was none and the frames of its payload, in order, and nothing else of the stream changes |
| RustWhole.GivenIsProcessed | peerrpc-rs/rpc/src/server.rs:111-226 | in every run the frames acted upon are those given, in order, less a second Call on a sequence |
| RustWhole.EndIsWhatWasReturned | peerrpc-rs/rpc/src/server.rs:170-183 | in every run the End frames queued for a stream are what its handler returned first, once, and none before |
| RustWhole.PayloadIsOffered | peerrpc-rs/rpc/src/server.rs:186-225 | a payload joins its stream's queue if there is room, and is lost if there is none, the receiver is gone or the stream has ended; no other stream changes |
| RustServer.HandleIsLocal | peerrpc-rs/rpc/src/server.rs:111-226 | a frame leaves queue, sender and partial message of every other sequence as they were |
| Mailboxes.LosslessExactly | peerrpc-rs/rpc/src/server.rs:202-208 | a queue that drops what finds no room loses nothing if and only if no offer met it full |
| Relay.WrittenIsPrefix | peerrpc-go/relay/server.go:245-278 | under every interleaving of the four goroutines, stopped anywhere, each direction has written a prefix of what arrived on it with prefixes stripped, and all of it once its queues are empty |
| Relay.DirectionsApart | peerrpc-go/relay/server.go:245-278 | in every run each direction of a session is where its own moves alone take it |
| Relay.PassesOn | peerrpc-go/relay/server.go:245-278 | a message that arrives at a pump at rest goes out without its prefix, and the pump is at rest again |
| Relay.StoppedForGood | peerrpc-go/relay/server.go:245-278 | once its reader has stopped a direction takes nothing more over, once its writer has stopped it writes nothing more, and only stopping stops them |
| Relay.GoReceivesTheSame | peerrpc-go/relay/server.go:263-270 | frames forwarded without their prefix reach a Go receiver equal to frames sent directly |
| Relay.TsReceivesNothing | peerrpc-ts/packages/peerrpc-transport/src/index.ts:221-242 | the same frames reach a TypeScript receiver completely when sent directly and not one of them through the relay |
| Target.RoundTrip | peerrpc-rs/peerrpc/src/target.rs:80-231 | parse(format(t)) = t if and only if the authority has no slash and is present unless local, the service is non-empty without question mark, and peer and token hold no ampersand and no percent escape |
| Target.PercentDecode | peerrpc-rs/peerrpc/src/target.rs:160-182 | the loop computes Decode |
| Target.DecodeKeeps | peerrpc-rs/peerrpc/src/target.rs:160-182 | decoding leaves a string as it is if and only if it holds no escape, and else shortens it |
| Target.DecodeUndoesEncode | peerrpc-rs/peerrpc/src/target.rs:160-191 | decoding inverts percent-encoding (section 2.1 of RFC 3986), with digits in either case, for every set of bytes left plain that excludes the percent sign |
| Target.QueriesConcatenate | peerrpc-rs/peerrpc/src/target.rs:128-149 | applying two queries joined by an ampersand is applying one after the other |
| Target.GoRoundTrip | peerrpc-go/peerrpc/target.go:127-228 | in Go the round trip holds if and only if scheme, authority and service hold no separator of their own and service and (unless local) authority are present |
| TargetGrammar.CutByGrammar | peerrpc-rs/peerrpc/src/target.rs:80-123 | a URI is cut into parts if and only if it is those parts joined in the one unambiguous way; it is refused for its prefix or separator if and only if that is missing |
| TargetGrammar.ParseRefuses | peerrpc-rs/peerrpc/src/target.rs:80-95 | what cannot be cut is refused for the reason it cannot be cut |
| TargetGrammar.ParseByGrammar | peerrpc-rs/peerrpc/src/target.rs:80-157 | a URI is accepted if and only if its scheme is known, it has a service and, unless local, an authority; each way to miss that has its own error, in this order; what is accepted has those parts and the last role, peer and token of its query |
| TargetGrammar.QueryReads | peerrpc-rs/peerrpc/src/target.rs:128-149 | of several pairs with the same key the last one counts, decoded; a role that is neither client nor server clears it; scheme, authority and service stay |
| TargetGrammar.GoParseByGrammar | peerrpc-go/peerrpc/target.go:164-228 | the same for Go, which knows no schemes and looks at the query before the authority |
| Dial.CandidatesAreAddedOnce | peerrpc-ts/packages/peerrpc-peer/src/index.ts:300-324 | told from the events alone: the answer applied is the first that came and no other; candidates are added in exactly this order: an early one with each await that resolves, a late one at once; none before the remote description, none twice; once the buffered ones are drained, exactly those that came while the answer was being applied are missing |
| Dial.Handler.OnAnswer | peerrpc-ts/packages/peerrpc-peer/src/index.ts:301-304 | only the first answer is accepted |
| Dial.Handler.OnCandidate | peerrpc-ts/packages/peerrpc-peer/src/index.ts:310-323 | buffered before the answer, added after the remote description is set, dropped in between |
| Dial.Handler.OnSettled | peerrpc-ts/packages/peerrpc-peer/src/index.ts:304-309 | one turn of the loop over the buffered candidates |

## Left out

- GoServer.StepKeepsMux: goroutines are steps on a state value, not classes; connection teardown, panicking handlers, a second Call on a live sequence and interceptors are not steps.
- GoServerWire.ResponseGrammar: holds while the connection is up; frames cut off by teardown are not modelled.
- GoServerDelivery.DeliveryIsPrefix: after the context has ended only the subsequence is claimed, because the serve loop may drop the payload in hand.
- GoClient.RepliesArriveInOrder: limited to 2^30 calls per client, because sequence numbers repeat then and a new call may take over an old one's partial message; the Attach loop is a step machine on values, and a client is attached once.
- RequestPipeline.RequestsArrive: the caller awaits each send before the next on its stream; two unawaited chunked sends on one stream would mix their chunks.
- ResponsePipeline.ResponsesArrive: does not speak about a call that is opened after a response frame of its own has come in, as dispatch drops frames of unknown sequences; a client opens a call before it writes the Call frame.
- TsClient.Client.HandleFrame: holds each call's queue by value, so aliasing between a queue and its stream object is not captured.
- TsServer.Server.HandleFrame: the close handler, which closes every queue, is not modelled; it is the close of AsyncQueue per stream.
- Reassembly.Reassembler.Reassemble: totals and offsets are naturals; negative values from a hostile peer, on which the implementations throw or panic, and the progress callback are left out.
- Store.Memory.Broadcast: services and inboxes are referred to by position instead of by pointer, and Stats is left out; it counts.
- StoreRuns.DeliveryIsBestEffort: message bodies are opaque numbers.
- Relay.WrittenIsPrefix: pairing of the two peers and the session map are left out; they run before and after the pumps.
- Target.RoundTrip: strings are byte strings; the lossy UTF-8 conversion after percent-decoding is not modelled.
- Dial.CandidatesAreAddedOnce: the first candidates are claimed complete only once the loop over them is done; a rejected promise stops it.
- RustServer.DeliveryIsLossyExactly: a second Call on a used sequence, and transport failure, are not steps.
- RustSends.MixingLosesExactly: messages of equal length are left out; mixed, they fill one buffer together, and whether what comes out is still right depends on their bytes.
- The Rust client beyond its decode loop: it enters a call in its map only after writing the request, so replies that arrive in between are dropped, and beyond that only the lossy delivery of the Rust server could be claimed again.
- Backpressure, timeouts, deadlines and liveness: they depend on clock and scheduler.
- WebRTC, ICE, WebSocket clients, HTTP bridge, CLI, TLS, tokens, observability: input and output around the core.
- Option builders, interceptor chaining, header setters, SDP insertion, ICE tiers: they would only add easy members.
