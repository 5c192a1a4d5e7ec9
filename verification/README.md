# ZeroMQ core: a verified model

This project models the part of ZeroMQ (the library vendored under
`External/libzmq/src`) whose correctness rests on state kept over many calls, and
proves what that state promises:

- **Subscription trie** (`multi_trie.dfy`, `mtrie_walk.dfy`, `subscription_trie.dfy`,
  `mtrie_history.dfy`, with `bytes.dfy` and `lexicographic.dfy`): the multi-trie that
  publishers look subscriptions up in. Its nodes hold no child, one child or a table
  over a byte range, and its removals walk the tree with an explicit stack while they
  prune and compact it. The class is proved equal to a plain set of (key, pipe) pairs,
  and its shape is a function of that set alone.
- **Distributor and fair queue** (`intrusive_array.dfy`, `distributor.dfy`,
  `distributor_runs.dfy`, `distributor_cases.dfy`, `fair_queue.dfy`,
  `fair_queue_runs.dfy`, `fair_queue_cases.dfy`, `filters.dfy`): one array of pipes partitioned in place
  by swaps. Multipart messages stay whole, every pipe is tried once per send, no frame
  is lost, messages are mixed only where a termination loses their place, no pipe waits
  for ever; the client and dish sockets filter exactly what they should.
- **Streaming codecs** (`stream_decoder.dfy`, `stream_engine.dfy`, `stream_encoder.dfy`,
  `frame_codec.dfy`, with `message_kinds.dfy`): the drivers of decoders and encoders, for
  any derived class, do not depend on how a stream is cut or on buffer sizes, and the
  engine hands every message to its session once, however often the session puts it off;
  the ZMTP 2.0 and 3.1 framing on top of them round trips exactly when the frame's large
  flag and its size field agree.
- **Shared receive buffer** (`shared_buffer.dfy`): the reference counts shared by the
  decoder and the owners of messages, over all interleavings, and where messages lie.
- **Context** (`context.dfy`, `rendezvous.dfy`, `context_termination.dfy`): slots,
  shutdown and termination, and the meeting of inproc binds and connects.
- **CURVE** (`curve_messages.dfy`, `curve_commands.dfy`, `curve_handshake.dfy`,
  `curve_counters.dfy`, `curve_client_runs.dfy`, `curve_server_runs.dfy`): the MESSAGE
  command of ZeroMQ RFC 26/CURVEZMQ in both compile-time layouts, the commands of the
  handshake with the boxes in them, and each side over every sequence of calls with
  arbitrary commands from its peer.

Objects that the source updates in place are classes here, with the same fields. Where
a guarantee is about whole runs, the state is also given as a value (a `Snapshot`), the
effect of each call as a relation `Next` between two of them, the guarantee as a lemma
about every sequence of such steps, and the method `Perform` states that the class takes
exactly these steps (the shared buffer and CURVE have the same shape with `Step`). The
rules callers keep are spelled out in the predicate `Allowed` beside each `Next`.

`dafny verify dfyconfig.toml` verifies the project.

## Where the code and its promises part

- Framing: both encoders set the large flag from the size of the body alone but choose
  the width of the size field from the body plus the subscription prefix. A subscription
  whose body has at most 255 bytes and whose frame has more is decoded as an empty
  message followed by garbage. `FrameCodec.FramingExact` states the exact condition.
- Fair queue: terminating an active pipe while a message is partly read can move the
  current position off the partly read pipe. Polling then still says that there is
  something to read, and the next receive finds nothing, fails an assertion, or returns a
  part of another message. `FairQueueCases.NextAfterTermination` states exactly when
  each happens, and `SolePipe`, `MixedMessage` and `AbortedReceive` reach them.
- Distributor: matching in mid-message, and activating a pipe that is not passive, change
  other pipes' regions. The contracts of `Match`, `ReverseMatch` and `Activated` state
  exactly when they do what they are for; `DistributorCases.MatchInMidMessage`,
  `ReverseMatchInMidMessage` and `ActivatedEligible` reach the other case. After a match in
  mid-message a pipe's parts stay a prefix of the message iff it holds the earlier ones
  (`DistributorRuns.LateMatch`, with `DistributorCases.PartWithoutFirst`).
- Fair queue: activating a pipe that is active lets a passive one in (`Fq.Activated`,
  `FairQueueCases.ActivatedTwice`).
- Context: terminate needs one free slot for each pending inproc connection and aborts
  without it. `Context.Ctx.TerminateBegin` states the exact condition and
  `Context.NoRoomToTerminate` reaches it.
- CURVE: the client does not look at its state when a WELCOME or READY comes, so it can be
  connected out of turn (`CurveClientRuns.MovesForward`, `ConnectedOutOfTurn`); both sides
  record the nonces of handshake commands without comparing them, so the record can go
  down (`RecordFalls` and `RecordFallsAtOnce` on both sides); the nonce of a MESSAGE is
  recorded before its box is opened, so one that does not open can shut out genuine ones
  (`CurveMessages.GenuineAccepted`, `NoneAfterLargest`); and an INITIATE refused for its
  metadata has moved the server on already (`CurveServerRuns.RefusedButMoved`,
  `RefusedForMetadata`).

## Model

| member | source | states |
|---|---|---|
| `SubscriptionTrie.Mtrie.Add` | External/libzmq/src/generic_mtrie_impl.hpp:70-154 | the set of pairs grows by exactly this pair, true iff the key had no pipe, and the node invariant holds afterwards |
| `SubscriptionTrie.Mtrie.RmPrefix` | External/libzmq/src/generic_mtrie_impl.hpp:396-535 | exactly this pair is removed; not_found, values_remain or last_value_removed as the set of pairs says |
| `SubscriptionTrie.Mtrie.RmValue` | External/libzmq/src/generic_mtrie_impl.hpp:156-394 | the explicit-stack walk ends, removes every pair of the pipe and no other, restores the node invariant, and calls back with the exact keys in strictly increasing lexicographic order: every removed key, or with call_on_uniq_ those left with no pipe |
| `SubscriptionTrie.Mtrie.Match` | External/libzmq/src/generic_mtrie_impl.hpp:537-577 | one callback per stored pair whose key is a prefix of the data, shorter keys first, and no other |
| `SubscriptionTrie.Mtrie.EraseHere` | External/libzmq/src/generic_mtrie_impl.hpp:418-435 | the effect on the pairs and the return code; only the node reached may be left redundant |
| `SubscriptionTrie.Mtrie.PruneChild` | External/libzmq/src/generic_mtrie_impl.hpp:461-530 | a redundant child is unlinked, the table compacted, the pairs unchanged, and redundancy can only have moved up to the parent |
| `SubscriptionTrie.Mtrie.Erase` | External/libzmq/src/generic_mtrie_impl.hpp:182-203 | the first visit of a node erases the pipe and calls back if due, later visits change nothing, and the part of the tree still to visit shrinks |
| `SubscriptionTrie.Mtrie.Down` | External/libzmq/src/generic_mtrie_impl.hpp:205-251 | the next entry pushed continues the depth-first order with the key buffer holding the path, or the node is finished |
| `SubscriptionTrie.Mtrie.AfterChild` | External/libzmq/src/generic_mtrie_impl.hpp:258-389 | a traversed slot is pruned or kept, the finished node satisfies its invariant again, and the measure of the walk decreases |
| `SubscriptionTrie.Mtrie.PruneSingle` | External/libzmq/src/generic_mtrie_impl.hpp:263-273 | a node with one child is closed with its invariant restored |
| `SubscriptionTrie.Mtrie.PruneSlot` | External/libzmq/src/generic_mtrie_impl.hpp:277-309 | one table slot: the child is unlinked or its byte enters new_min and new_max |
| `MtrieWalk.CompactTable` | External/libzmq/src/generic_mtrie_impl.hpp:311-389 | dropping the table, keeping one child, or cutting it to the live range keeps every child and restores the full node invariant |
| `MtrieWalk.DeleteChild` | External/libzmq/src/generic_mtrie_impl.hpp:277-300 | unlinking a redundant child in mid-walk keeps what is visited, called back, shaped and still to be resumed |
| `MtrieWalk.FinishedPairs` | External/libzmq/src/generic_mtrie_impl.hpp:156-394 | what the walk reached at its end is the set without the pipe, with the callbacks due |
| `MultiTrie.Extend` | External/libzmq/src/generic_mtrie_impl.hpp:78-118 | the table covers the new byte, every child is kept, and the range ends at the new byte or at a live child |
| `MultiTrie.RemoveChild` | External/libzmq/src/generic_mtrie_impl.hpp:465-528 | the child is gone, all others kept, and the node is in its tightest layout |
| `MultiTrie.GrowStep` | External/libzmq/src/generic_mtrie_impl.hpp:120-143 | a new node linked under a path keeps the pairs and every invariant except at the new node |
| `MultiTrie.PruneStep` | External/libzmq/src/generic_mtrie_impl.hpp:461-530 | unlinking a redundant node keeps the pairs and every invariant except at its parent |
| `MultiTrie.PrefixIn` | External/libzmq/src/generic_mtrie_impl.hpp:537-577 | every prefix of a stored key has a node |
| `MultiTrie.Signal` | External/libzmq/src/generic_mtrie_impl.hpp:546-552 | one callback per pipe of a node, after all earlier ones |
| `MtrieHistory.Run` | External/libzmq/src/generic_mtrie_impl.hpp:70-577 | after any sequence of add, rm(prefix) and rm(value) from empty, the trie stands for exactly the set these operations denote and satisfies the node invariant |
| `MtrieHistory.ShapeIsCanonical` | External/libzmq/src/generic_mtrie_impl.hpp:85-117 | two tries for the same set of pairs have the same nodes, ranges, counts and children, up to `_min` of childless nodes |
| `MtrieHistory.AddThenRemove` | External/libzmq/src/generic_mtrie_impl.hpp:465-528 | adding a new pair and removing it restores the structure |
| `MtrieHistory.PipeBelow` | External/libzmq/src/generic_mtrie_impl.hpp:579-582 | every node but the root has a pipe at or below it |
| `MtrieHistory.AlikeNodes` | External/libzmq/src/generic_mtrie_impl.hpp:323-387 | pipes and live children determine a node's whole layout |
| `IntrusiveArray.PipeArray.PushBack` | External/libzmq/src/array.hpp:89-95 | appended, and the stored index of every item is its position |
| `IntrusiveArray.PipeArray.Erase` | External/libzmq/src/array.hpp:97-111 | exactly that item goes, the last one takes its place, indices stay positions |
| `IntrusiveArray.PipeArray.Swap` | External/libzmq/src/array.hpp:113-122 | two items exchange places and indices, all others stay |
| `Distributor.Dist.Attach` | External/libzmq/src/dist.cpp:50-65 | the pipe joins the eligible pipes, and the active ones only between messages |
| `Distributor.Dist.Match` | External/libzmq/src/dist.cpp:67-80 | the matching set grows by exactly this pipe if it is eligible, in mid-message too; nothing else changes iff the pipe is not eligible without being active |
| `Distributor.Dist.ReverseMatch` | External/libzmq/src/dist.cpp:82-96 | the matching pipes become exactly the eligible ones that were not matching; the other regions stay iff all eligible pipes are active |
| `Distributor.Dist.Unmatch` | External/libzmq/src/dist.cpp:98-101 | no pipe matches, the other regions stay |
| `Distributor.Dist.PipeTerminated` | External/libzmq/src/dist.cpp:103-121 | the pipe leaves every region and the array, the others keep theirs |
| `Distributor.Dist.Activated` | External/libzmq/src/dist.cpp:123-137 | a passive pipe becomes eligible, and active only between messages, and no other pipe changes region; for a pipe that is not passive nothing changes iff no pipe is passive |
| `Distributor.Dist.Write` | External/libzmq/src/dist.cpp:214-228 | a pipe that takes the frame stays, one that refuses it becomes passive and nothing before it moves |
| `Distributor.Dist.Distribute` | External/libzmq/src/dist.cpp:162-207 | every matching pipe is tried exactly once, those that took the frame and no others stay matching and hold it once more, and the references left equal the pipes that took it |
| `Distributor.Dist.SendToMatching` | External/libzmq/src/dist.cpp:145-160 | the pipes tried are the matching ones, each once; exactly those that took the frame hold it once more and stay matching; those that refused it are passive; the eligible pipes all become active iff the message ended; the references left equal the pipes that took the frame |
| `Distributor.Dist.SendToAll` | External/libzmq/src/dist.cpp:139-143 | the same to all active pipes |
| `Distributor.Dist.StateNested` | External/libzmq/src/dist.cpp:50-137 | matching within active within eligible within all, active equal to eligible between messages, and the counters are the sizes of these sets |
| `DistributorRuns.RunAtomic` | External/libzmq/src/dist.cpp:50-228 | at every point of every run each pipe holds a prefix of each message's parts, messages in order, and the regions are nested |
| `DistributorRuns.NextInStep` | External/libzmq/src/dist.cpp:103-160 | every step keeps the pipes that will get the next part holding all the parts before it |
| `DistributorRuns.Perform` | External/libzmq/src/dist.cpp:50-228 | each call of the class is a step of such a run |
| `DistributorRuns.AtomicIff` | External/libzmq/src/dist.cpp:214-228 | a pipe's log stays atomic with one more part iff it holds all the earlier parts of the message |
| `DistributorRuns.LateMatch` | External/libzmq/src/dist.cpp:67-80 | after a match in mid-message and the next part, every write succeeding, all logs are atomic iff the pipe was not eligible, matched already, or holds all parts so far |
| `DistributorRuns.Publish` | External/libzmq/src/xpub.cpp:295-326 | between messages: any pipes matched anew, the selection reversed if the socket inverts it, one frame sent, every write succeeding: exactly the eligible pipes among them, or else exactly the other eligible ones, get it |
| `DistributorRuns.Broadcast` | External/libzmq/src/dist.cpp:139-160 | between messages a frame sent to all, every write succeeding, reaches exactly the eligible pipes |
| `DistributorCases.MatchInMidMessage` | External/libzmq/src/dist.cpp:67-80 | a pipe attached in mid-message is matched and the regions are wrong |
| `DistributorCases.PartWithoutFirst` | External/libzmq/src/dist.cpp:67-80 | and it gets the second part of the message without the first |
| `DistributorCases.ReverseMatchInMidMessage` | External/libzmq/src/dist.cpp:82-96 | the same state reversed |
| `DistributorCases.ActivatedEligible` | External/libzmq/src/dist.cpp:123-137 | a pipe that is eligible is activated and the one that refused a frame comes back |
| `FairQueue.Fq.Attach` | External/libzmq/src/fq.cpp:45-50 | the pipe becomes active, every other one waits at most one turn more |
| `FairQueue.Fq.Activated` | External/libzmq/src/fq.cpp:71-76 | exactly this pipe becomes active iff it was passive, and then every other one waits at most one turn more; otherwise the first passive one does |
| `FairQueue.Fq.Recvpipe` | External/libzmq/src/fq.cpp:83-126 | the first frame of one active pipe, the current one if it can be read; every other readable pipe stays active and one turn closer when the message ends; the log stays unmixed iff the frame continues the partly read message; fails iff no active pipe can be read, and aborts iff a message is partly read and the current pipe is empty |
| `FairQueue.Fq.HasIn` | External/libzmq/src/fq.cpp:128-150 | true at once if a message is partly read, otherwise iff an active pipe can be read, with `current` on it; no readable pipe moves further away |
| `FairQueue.Fq.PipeTerminated` | External/libzmq/src/fq.cpp:52-69 | exactly this pipe leaves; a partly read pipe stays current iff a stated condition on the positions holds, and otherwise which pipe is current instead |
| `FairQueueCases.NextAfterTermination` | External/libzmq/src/fq.cpp:52-150 | after a termination in mid-message the poll is true, the next receive continues the message iff the position condition holds, and otherwise fails, aborts or mixes messages exactly as the pipe now current says |
| `FairQueueCases.SolePipe` | External/libzmq/src/fq.cpp:52-150 | a partly read pipe that is the only one goes: the poll is true and nothing can be read |
| `FairQueueCases.MixedMessage` | External/libzmq/src/fq.cpp:52-126 | another pipe goes and a part of a third one is read in mid-message |
| `FairQueueCases.AbortedReceive` | External/libzmq/src/fq.cpp:52-126 | the same with an empty third pipe: the receive fails its assertion |
| `FairQueueCases.ActivatedTwice` | External/libzmq/src/fq.cpp:71-76 | a pipe that is active is activated and an empty one comes back |
| `FairQueueRuns.RunInv` | External/libzmq/src/fq.cpp:45-150 | in every run, terminations at any time included, each frame that arrived was fetched once, in order, or is still queued |
| `FairQueueRuns.RunUnmixed` | External/libzmq/src/fq.cpp:45-126 | in every run in which no termination loses the place of a partly read message, parts of different messages are never mixed |
| `FairQueueRuns.BoundedWait` | External/libzmq/src/fq.cpp:45-150 | between any two points of any run a readable pipe that is not served sees at most its distance, below the number of active pipes, of messages completed, plus one for each pipe that joined, plus the number of active pipes at each termination; without terminations the distance and the joins alone |
| `FairQueueRuns.NextInv` | External/libzmq/src/fq.cpp:45-150 | every step keeps the conservation of frames |
| `FairQueueRuns.Perform` | External/libzmq/src/fq.cpp:45-150 | each call of the class is a step of such a run |
| `Filters.Client.XRecv` | External/libzmq/src/client.cpp:70-88 | the next single-part message is returned; every frame dropped before it is a part of a message of several parts; fails only with nothing left to read |
| `Filters.Dish.XxRecv` | External/libzmq/src/dish.cpp:186-202 | the frame returned is of a joined group and the last one fetched, every frame dropped before it is of another group |
| `Filters.Dish.XRecv` | External/libzmq/src/dish.cpp:172-184 | the prefetched message if there is one, otherwise the next of a joined group; fails only with nothing left to read, and aborts only where the fair queue does |
| `Filters.Dish.XHasIn` | External/libzmq/src/dish.cpp:204-220 | true iff a message is prefetched, which the next receive returns; false only with nothing left to read |
| `Filters.RunDish` | External/libzmq/src/dish.cpp:172-220 | for any interleaving of polls and receives, with pipes joining and leaving at any time and messages arriving, what was returned and prefetched is exactly the messages of joined groups, in order, up to an abort of the fair queue |
| `Filters.DrainClient` | External/libzmq/src/client.cpp:70-88 | repeated receives return exactly the single-part messages of everything that was readable |
| `Filters.DrainDish` | External/libzmq/src/dish.cpp:172-220 | the same for the messages of joined groups |
| `StreamDecoder.Decoder.RunSteps` | External/libzmq/src/decoder.hpp:115-120 | steps run until one asks for bytes or returns non-zero, as in the reference |
| `StreamDecoder.Decoder.Decode` | External/libzmq/src/decoder.hpp:100-148 | by either path the call does what feeding its used bytes one at a time does, uses all of them unless it stops early, and returns what the last step returned |
| `StreamEngine.Engine.Fill` | External/libzmq/src/stream_engine_base.cpp:275-297 | what is read into the buffer get_buffer offers is, when read in place, no more than the decoder asked for, which is what decode asserts |
| `StreamEngine.Engine.ProcessInput` | External/libzmq/src/stream_engine_base.cpp:302-312 | `n` messages are offered: the session takes all before the last; the input is held iff it puts the last one off, and fails iff the bytes cannot be decoded or it rejects the last one; the count of messages taken grows by exactly the verdicts that say so |
| `StreamEngine.Engine.InEvent` | External/libzmq/src/stream_engine_base.cpp:265-327 | one read of what is ready, processed: the input stops iff the last message offered is put off, and the connection fails iff the transport is broken, the input is bad or the message is rejected; nothing is read or offered while a message is put off |
| `StreamEngine.Engine.RestartInput` | External/libzmq/src/stream_engine_base.cpp:415-466 | the message put off is offered again; if it is taken, what was read and then what is ready go on from there, each message offered once and counted iff taken; otherwise nothing is read and no other message is offered |
| `StreamEngine.Engine.Resume` | External/libzmq/src/stream_engine_base.cpp:432-463 | the rest of a restart: it stops again iff a message of what was already read is put off, fails if one is rejected or the transport had failed, and otherwise reads on |
| `StreamEngine.Run` | External/libzmq/src/decoder.hpp:72-148 | over any reads, restarts and verdicts of the session the decoder is where feeding the decoded part of the stream one byte at a time leads, the number of messages taken is the number of verdicts that say so, and that is every message decoded but for one put off last |
| `StreamEngine.ReceiveAll` | External/libzmq/src/decoder.hpp:72-148 | in whatever pieces a stream is read and by whichever path get_buffer offers, step inputs and results are those of feeding one byte at a time, and the used counts add up to the bytes consumed |
| `StreamDecoder.FeedBlock` | External/libzmq/src/decoder.hpp:122-136 | collecting the bytes asked for at once is the same as one at a time |
| `StreamEncoder.Encoder.Encode` | External/libzmq/src/encoder.hpp:74-127 | output and rest together are the rest before; the message is released iff all of it is out; the buffer, supplied or the encoder's own, is not overrun and is full unless the message ended; only what is left of the data of one step goes out past it, from where it lies, when the buffer is its own and still empty |
| `StreamEncoder.Encoder.LoadMsg` | External/libzmq/src/encoder.hpp:129-134 | all the data of the message's steps is now to be written |
| `StreamEncoder.SendMessage` | External/libzmq/src/encoder.hpp:74-151 | for all buffer sizes and modes the output of a message is the concatenation of its steps' data, and it is released exactly once, afterwards |
| `FrameCodec.FrameRoundTrip` | External/libzmq/src/v2_decoder.cpp:62-167 | a well-framed message is decoded to flags, prefix and body, or refused when it exceeds the limit |
| `FrameCodec.FramingExact` | External/libzmq/src/v2_encoder.cpp:50-96 | the round trip holds iff the body and the whole frame are on the same side of 255 bytes |
| `FrameCodec.FrameBroken` | External/libzmq/src/v3_1_encoder.cpp:50-105 | otherwise the receiver gets an empty message first |
| `FrameCodec.LostSubscription` | External/libzmq/src/v2_encoder.cpp:50-96 | a concrete subscription, to a topic of 255 bytes, that does not arrive |
| `FrameCodec.StreamRoundTrip` | External/libzmq/src/v2_decoder.cpp:62-167 | any sequence of well-framed messages is decoded to itself |
| `FrameCodec.EndToEnd` | External/libzmq/src/v3_1_encoder.cpp:50-105 | messages encoded with any buffers, read in any pieces and put off at will by the session are never refused, and once all is decoded they have arrived, in order |
| `FrameCodec.EncoderSends` | External/libzmq/src/v2_encoder.cpp:50-96 | the two encoder steps put out the frame and come back to the start |
| `MessageKinds.PrefixIs` | External/libzmq/src/msg.hpp:57-58 | the names in front of topics, by character |
| `FrameCodec.FeedFrame` | External/libzmq/src/v2_decoder.cpp:62-167 | any flags byte, size field and payload, whoever made them: the decoder refuses the frame iff its size is over the limit, and otherwise yields the flag bits and the payload and is ready for the next |
| `FrameCodec.FrameBytes` | External/libzmq/src/v3_1_encoder.cpp:50-105 | byte by byte: the flag bits, a size of one or eight bytes that counts all that follows it, the name or byte of a subscription, the body, and nothing else |
| `FrameCodec.MessageSeen` | External/libzmq/src/v2_encoder.cpp:50-96 | what a receiver should see, in bytes: flags and body of a plain message unchanged; a subscription as 1 or 0 in front of the topic for ZMTP 2.0, as a command with its name there for 3.1 |
| `SharedBuffer.StepSafe` | External/libzmq/src/decoder_allocators.cpp:60-140 | every atomic step of any thread keeps the counter equal to the allocator's reference plus the live messages, touches allocated memory only, reuses a buffer only with no message on it, and has a content slot left for each new message |
| `SharedBuffer.RunSafe` | External/libzmq/src/decoder_allocators.cpp:60-140 | in every interleaving no buffer is used after it is freed and none is freed twice |
| `SharedBuffer.RefsAreCopies` | External/libzmq/src/msg.cpp:353-388 | in every interleaving the count in a message is one when it is made, plus its shares, minus its closes, and it stays on the buffer it was made on |
| `SharedBuffer.LiveCopy` | External/libzmq/src/msg.cpp:353-388 | in every interleaving, while a copy of a message is not closed, its buffer is allocated, not freed, not about to be, and not about to be reused |
| `SharedBuffer.NoOverlap` | External/libzmq/src/decoder_allocators.cpp:60-140 | in every interleaving the data of two messages with open copies never share a byte of a buffer, and end inside it |
| `SharedBuffer.RunEnds` | External/libzmq/src/decoder_allocators.cpp:101-140 | once everything is closed every buffer ever allocated was freed exactly once |
| `SharedBuffer.DecRefStep` | External/libzmq/src/decoder_allocators.cpp:129-140 | dropping a message's reference keeps the invariant, and the thread that reaches zero is the one to free |
| `SharedBuffer.Inc` | External/libzmq/src/atomic_counter.hpp:100-143 | one more, below the 32-bit limit |
| `SharedBuffer.Dec` | External/libzmq/src/atomic_counter.hpp:145-198 | one less, above zero |
| `SharedBuffer.Allocator.Allocate` | External/libzmq/src/decoder_allocators.cpp:60-99 | whatever message owners do before and after every access to the counter, the buffer returned has counter 1 and carries no message |
| `SharedBuffer.Allocator.Deallocate` | External/libzmq/src/decoder_allocators.cpp:101-108 | the allocator's reference is given up once |
| `Context.Ctx.Start` | External/libzmq/src/ctx.cpp:406-476 | the fixed slots are set, all socket slots are free and listed once, the lowest to be used first; on failure the context has not started |
| `Context.Ctx.CreateSocket` | External/libzmq/src/ctx.cpp:478-517 | ETERM iff terminating, no socket if the start fails, EMFILE iff no slot is free, the slot given back if the socket cannot be made, otherwise a new socket on the last free slot |
| `Context.Ctx.DestroySocket` | External/libzmq/src/ctx.cpp:519-535 | the slot is free again; the reaper is told to stop iff this was the last socket of a terminating context |
| `Context.Ctx.Shutdown` | External/libzmq/src/ctx.cpp:235-256 | terminating from now on; the first time, in a running context, exactly the live sockets are told to stop, or else the reaper |
| `Context.Ctx.TerminateBegin` | External/libzmq/src/ctx.cpp:175-204 | succeeds iff there is a free slot for each pending connection and the sockets can be made; makes exactly that many; then, the first time, tells exactly all live sockets to stop, or else the reaper |
| `ContextTermination.Terminate` | External/libzmq/src/ctx.cpp:156-204 | whatever other sockets do meanwhile, nothing of what was pending is pending after the binds but what another socket in mid-bind is about to connect; the rest was pended meanwhile at an address not bound; and this is what the context goes on with |
| `ContextTermination.BindOne` | External/libzmq/src/socket_base.cpp:555-564 | one bind in two steps with others running in between: the connection it is for is made or in the hands of a binder |
| `Context.Ctx.TerminateEnd` | External/libzmq/src/ctx.cpp:206-215 | when the reaper reported that it is done, no socket is left, as the code asserts, and every socket slot is empty |
| `Context.NoRoomToTerminate` | External/libzmq/src/ctx.cpp:156-204 | a socket that waits for a bind in a full context: terminate aborts |
| `Context.DoneAtEnd` | External/libzmq/src/ctx.cpp:206-215 | in every run, once the reaper reported, no socket is left, none appears and it reports no more |
| `Context.Ctx.UsedSlots` | External/libzmq/src/ctx.cpp:478-535 | a socket slot holds a mailbox iff it is not in the free list iff a live socket has it |
| `Context.NoLateSocket` | External/libzmq/src/ctx.cpp:156-256 | in every run, once termination began, it stays so and every new socket is one of terminate's own |
| `Context.StopOnce` | External/libzmq/src/ctx.cpp:156-256 | in every run the reaper is told to stop at most once, only with no sockets left, and none appears afterwards |
| `Context.ToldToStop` | External/libzmq/src/ctx.cpp:193-252 | in every run the sockets alive when a running context begins to terminate have been told to stop, at that point and at every later one |
| `Context.RunInv` | External/libzmq/src/ctx.cpp:156-256 | the reaper was told to stop exactly when a running context is terminating with no sockets |
| `Context.Perform` | External/libzmq/src/ctx.cpp:156-535 | each call of the class is a step of such a run |
| `Context.TakeSlot` | External/libzmq/src/ctx.cpp:496-514 | taking the last free slot keeps used and free slots disjoint, duplicate-free and covering |
| `Context.GiveSlot` | External/libzmq/src/ctx.cpp:523-529 | the same for giving one back |
| `Rendezvous.Endpoints.RegisterEndpoint` | External/libzmq/src/ctx.cpp:688-701 | succeeds iff the address is free, and the binder then owns it |
| `Rendezvous.Endpoints.UnregisterEndpoint` | External/libzmq/src/ctx.cpp:703-718 | succeeds iff this socket owns the address |
| `Rendezvous.Endpoints.UnregisterEndpoints` | External/libzmq/src/ctx.cpp:720-736 | exactly the addresses of this socket go |
| `Rendezvous.Endpoints.PendConnection` | External/libzmq/src/ctx.cpp:759-779 | connected at once iff the address is bound, otherwise pending |
| `Rendezvous.Endpoints.ConnectPending` | External/libzmq/src/ctx.cpp:781-795 | exactly what waits at the address is connected, each once, to this binder |
| `Rendezvous.RunInv` | External/libzmq/src/ctx.cpp:688-795 | in every interleaving each requested connection is pending once or connected, never both, and nothing waits at an address whose binder has finished |
| `Rendezvous.ConnectedForGood` | External/libzmq/src/ctx.cpp:759-795 | over every run a connection once made stays as it was made and a request is never lost |
| `Rendezvous.MadeWithBinder` | External/libzmq/src/ctx.cpp:759-795 | in every run a connection is made to the socket that is bound to the requested address at that time |
| `Rendezvous.AfterBinds` | External/libzmq/src/ctx.cpp:163-173 | in every run, after binds by a set of sockets at the addresses of all pending connections, each of these is made or another socket's bind is in mid-bind; what is pending otherwise was pended during the binds at an address not bound |
| `Rendezvous.Perform` | External/libzmq/src/ctx.cpp:688-795 | each call of the class is a step of such a run; a bind is two of them, as in socket_base.cpp |
| `CurveMessages.CurveEncoding.Encode` | External/libzmq/src/curve_mechanism_base.cpp:138-232 | both layouts produce the same MESSAGE command, with a fresh nonce |
| `CurveMessages.CurveEncoding.Decode` | External/libzmq/src/curve_mechanism_base.cpp:234-311 | both layouts refuse the same commands for the same reasons and otherwise return the same flags and body |
| `CurveMessages.RoundTrip` | External/libzmq/src/curve_mechanism_base.cpp:107-311 | for every length, what was encoded is restored iff its nonce is larger than the last accepted one, and refused as out of sequence otherwise |
| `CurveMessages.MessageSeen` | External/libzmq/src/curve_mechanism_base.cpp:169-185 | both flags and the body of a plain message arrive; a subscription arrives as one byte, or as a command with its name, in front of the topic |
| `CurveMessages.MessageBytes` | External/libzmq/src/curve_mechanism_base.cpp:190-232 | the bytes of a MESSAGE: name, nonce, box; its length |
| `CurveMessages.Verdicts` | External/libzmq/src/curve_mechanism_base.cpp:65-136 | which command is malformed, unexpected, too short or out of sequence, each exactly; what the record is afterwards; what an accepted one opens to |
| `CurveMessages.NonceGrows` | External/libzmq/src/curve_mechanism_base.cpp:107-136 | accepted nonces strictly increase, and a refusal before the box is opened leaves no trace |
| `CurveMessages.GenuineAccepted` | External/libzmq/src/curve_mechanism_base.cpp:107-136 | after any commands, genuine or not, a genuine one is accepted and restored iff its nonce is above those of all well-formed ones before it |
| `CurveMessages.NoneAfterLargest` | External/libzmq/src/curve_mechanism_base.cpp:126-132 | after one with the largest nonce and an arbitrary box none is |
| `CurveMessages.Deliver` | External/libzmq/src/curve_mechanism_base.cpp:107-311 | with commands delivered in any order and number, exactly those later than all delivered before are accepted, restored |
| `CurveMessages.SendAll` | External/libzmq/src/curve_mechanism_base.cpp:138-232 | consecutive messages get consecutive nonces |
| `CurveHandshake.CurveClient.NextHandshakeCommand` | External/libzmq/src/curve_client.cpp:63-204 | the step the run theorems are about: HELLO or INITIATE with its boxes and the next nonce, or nothing |
| `CurveHandshake.CurveClient.ProcessHandshakeCommand` | External/libzmq/src/curve_client.cpp:85-285 | the step the run theorems are about: WELCOME and READY in any state, ERROR when waiting, by what their boxes open to |
| `CurveHandshake.CurveServer.NextHandshakeCommand` | External/libzmq/src/curve_server.cpp:70-96 | the step the run theorems are about: WELCOME with its cookie, READY or ERROR as the state says |
| `CurveHandshake.CurveServer.ProcessHandshakeCommand` | External/libzmq/src/curve_server.cpp:98-444 | the step the run theorems are about: HELLO and INITIATE by what their boxes, cookie and vouch open to, with the ZAP reply that may be there at once |
| `CurveHandshake.CurveServer.ReceiveZapReply` | External/libzmq/src/zap_client.cpp:280-307 | a reply 2xx leads to sending_ready, 3xx to error_sent without an ERROR, any other to sending_error, none or a malformed one nowhere |
| `CurveHandshake.HelloTaken` | External/libzmq/src/curve_server.cpp:144-208 | exactly which HELLO is accepted: 200 bytes, version 1.0, a box from the key it carries |
| `CurveHandshake.InitiateAdmitted` | External/libzmq/src/curve_server.cpp:283-405 | exactly which INITIATE is admitted: the server's cookie for this client, a box from it, and in that a vouch for its short-term key |
| `CurveHandshake.InitiateTaken` | External/libzmq/src/curve_server.cpp:400-444 | an admitted INITIATE is accepted iff its metadata are right and the ZAP request could be sent and its reply, if there, is well-formed |
| `CurveHandshake.ClientTakes` | External/libzmq/src/curve_client.cpp:160-285 | exactly which commands a client takes, in bytes and boxes, and the state each leads to |
| `CurveHandshake.ErrorArrives` | External/libzmq/src/curve_server.cpp:487-498 | the ERROR of a server that refuses authentication, in bytes, takes a client that waits for WELCOME or READY to error_received |
| `CurveCommands.HelloAccepted` | External/libzmq/src/curve_client_tools.hpp:57-94 | the HELLO a client makes has the form, key and nonce the server reads, and opens there |
| `CurveCommands.WelcomeAccepted` | External/libzmq/src/curve_client_tools.hpp:96-138 | the WELCOME a server makes opens at the client to the server key and cookie in it |
| `CurveCommands.InitiateAccepted` | External/libzmq/src/curve_client_tools.hpp:140-218 | the INITIATE a client makes returns the cookie the server made and opens there to what was put in |
| `CurveCommands.VouchAccepted` | External/libzmq/src/curve_server.cpp:371-405 | the vouch in it opens with the client's long-term key and names its short-term one |
| `CurveCommands.Names` | External/libzmq/src/curve_client_tools.hpp:220-236 | the command names, by character |
| `CurveCommands.NonceNames` | External/libzmq/src/curve_client_tools.hpp:69-193 | the nonce prefixes, by character |
| `CurveHandshake.Handshake` | External/libzmq/src/curve_server.cpp:70-498 | an honest handshake succeeds because its boxes open, agrees on the connection key, and leaves each record just below the peer's next nonce |
| `CurveHandshake.Session` | External/libzmq/src/curve_client.cpp:63-285 | after an honest handshake, in both directions, every message delivered in order is accepted and restored from the first on, and repeated or late ones are refused |
| `CurveCounters.NoneTwice` | External/libzmq/src/curve_mechanism_base.cpp:138-146 | two uses of a nonce counter are equal iff a multiple of 2^64 apart, and increase before that |
| `CurveClientRuns.NoncesIncrease` | External/libzmq/src/curve_client.cpp:139-204 | in every run the nonces of HELLO, INITIATE and all MESSAGEs strictly increase |
| `CurveClientRuns.CarriesNonce` | External/libzmq/src/curve_client_tools.hpp:57-218 | and they are what the commands carry |
| `CurveClientRuns.MovesForward` | External/libzmq/src/curve_client.cpp:85-115 | a call moves the client along the handshake or not at all iff no WELCOME or READY is out of turn |
| `CurveClientRuns.WhatMoves` | External/libzmq/src/curve_client.cpp:63-115 | which call leads to which state: WELCOME, READY and ERROR as soon as they are accepted, and the two commands sent |
| `CurveClientRuns.ConnectedOutOfTurn` | External/libzmq/src/curve_client.cpp:206-255 | a client that sent nothing is connected by a READY |
| `CurveClientRuns.ConnectedInOrder` | External/libzmq/src/curve_client.cpp:63-255 | in every run with WELCOME and READY in turn a connected client sent HELLO, accepted WELCOME, sent INITIATE and accepted READY, in this order |
| `CurveClientRuns.RecordFalls` | External/libzmq/src/curve_client.cpp:206-255 | the record of the peer's nonces goes down iff a READY carries a smaller one |
| `CurveClientRuns.RecordIs` | External/libzmq/src/curve_client.cpp:206-226 | the record after any call: the nonce of a READY, a larger one of a MESSAGE, or as it was |
| `CurveClientRuns.RecordFallsAtOnce` | External/libzmq/src/curve_client.cpp:206-255 | a first READY with the nonce 0 does it |
| `CurveClientRuns.MessagesIncrease` | External/libzmq/src/curve_mechanism_base.cpp:107-136 | in every run the nonces of accepted MESSAGEs strictly increase as long as no READY comes between |
| `CurveClientRuns.Perform` | External/libzmq/src/curve_client.cpp:63-285 | each call of the class is a step of such a run |
| `CurveServerRuns.ReadyInOrder` | External/libzmq/src/curve_server.cpp:70-444 | in every run, whatever commands come, a ready server accepted a HELLO, then an INITIATE whose cookie, box and vouch are right, then a 2xx reply if it asked for one |
| `CurveServerRuns.ReadyAcceptedAll` | External/libzmq/src/curve_server.cpp:283-444 | if no call comes after a refusal the INITIATE's metadata were right too |
| `CurveServerRuns.VouchForAnother` | External/libzmq/src/curve_server.cpp:371-405 | an INITIATE with a vouch for another short-term key is refused and does not move the server |
| `CurveServerRuns.CookieForAnother` | External/libzmq/src/curve_server.cpp:303-343 | an INITIATE with a cookie made for another client key or another connection is refused and changes nothing |
| `CurveServerRuns.WhatMoves` | External/libzmq/src/curve_server.cpp:70-130 | for every state and call the state after it, by the form of the command and the first digit of the ZAP status |
| `CurveServerRuns.RefusedButMoved` | External/libzmq/src/curve_server.cpp:408-444 | an INITIATE moves the server on although it is refused iff all but its metadata, or the immediate ZAP reply, is right |
| `CurveServerRuns.RefusedForMetadata` | External/libzmq/src/curve_server.cpp:283-444 | a genuine INITIATE with metadata the server does not like is refused and leads to READY |
| `CurveServerRuns.ReadyBeforeMessages` | External/libzmq/src/curve_server.cpp:446-485 | in every run the READY goes out once, before all MESSAGEs, carries the counter's nonce, and the nonces of all of them strictly increase |
| `CurveServerRuns.RecordFalls` | External/libzmq/src/curve_server.cpp:144-357 | the record of the client's nonces goes down iff a HELLO, or an INITIATE with the right cookie, carries a smaller one |
| `CurveServerRuns.RecordIs` | External/libzmq/src/curve_server.cpp:144-357 | the record after any call: the nonce of a HELLO, of an INITIATE with the right cookie, a larger one of a MESSAGE, or as it was |
| `CurveServerRuns.RecordFallsAtOnce` | External/libzmq/src/curve_server.cpp:144-208 | a first HELLO with the nonce 0 does it |
| `CurveServerRuns.MessagesIncrease` | External/libzmq/src/curve_mechanism_base.cpp:107-136 | in every run the nonces of accepted MESSAGEs strictly increase, under one key |
| `CurveServerRuns.Perform` | External/libzmq/src/curve_server.cpp:70-498 | each call of the class is a step of such a run |
| `Bytes.SizeBytes` | External/libzmq/src/wire.hpp:78-100 | reading back the eight bytes written for a 64-bit number gives the number |
| `Bytes.ByteAt` | External/libzmq/src/wire.hpp:78-88 | each of them on its own, most significant first |

## Left out

- Memory: allocation failure, destructors and pointer arithmetic; trie nodes live in a map from addresses to nodes, a table in a sequence.
- Pipes: a pipe is a queue that may refuse a write; water marks, flushing, delimiters and credentials are not modelled, nor are `check_hwm` and `has_out`.
- std::set order of pipes in a trie node: pipes are numbers and ordered as such, as pointers are in the source.
- DistributorRuns.RunAtomic: for runs with match, unmatch and reverse_match between messages only, activated for passive pipes only and one way of sending per message, as the sockets that use it do.
- Distributor.Dist.Write: a refused write while more pipes match than are active, which takes a match in mid-message, is not modelled; with no active pipe the code then swaps with a position before the first.
- Distributor.Dist.Distribute: the reference count is stated for messages whose content is shared; small messages are copied and have none.
- Fair queue: a pipe's writer makes whole messages visible.
- FairQueueRuns.RunInv: for runs in which activated is called for passive pipes only.
- Socket types gather and channel: the same receive loop as client's.
- Dish: joining and leaving groups, and the session that turns them into commands; the set of groups is fixed.
- Decoder steps: the address passed to a step, and with it the choice between a message of its own and one in the receive buffer; the bytes a step sees are the same either way. Sizes that do not fit into size_t.
- Engine: `resize_buffer`, the handshake before the decoder is set, polling and the output side.
- StreamEngine.ReceiveAll: for derived classes whose steps ask for bytes when they return 1 and do not ask for nothing for ever.
- SharedBuffer.RunSafe: for buffer sizes whose number of content slots fits the 32-bit counter; memory ordering of the atomic operations is taken as sequentially consistent.
- Context options, fork and VMCI, `choose_io_thread`, `send_command`, and the I/O threads a failed start leaves behind.
- Context callers: a pending connection keeps its socket alive, so a socket with one is not destroyed.
- Inproc: `find_endpoint` with its direct connection, and what connecting does to pipes and options.
- Context.Ctx.TerminateBegin: what its binds leave pending is given to it; `ContextTermination.Terminate` derives it.
- Reaper: only that it reports once after it was told to stop.
- CURVE: the crypto library is abstract: opening a sealed text returns it, and the two sides of a pair of keys have the same box; its failures, the metadata format and the contents of the ZAP exchange are not modelled, nor is the zero padding of handshake boxes.
- CurveHandshake.Session: barring a wrap of the 64-bit nonces.
- CurveClientRuns.NoncesIncrease: for runs of fewer calls than there are nonces; `CurveCounters.NoneTwice` says what happens after.
- CurveServerRuns.ReadyBeforeMessages: the same.
- PLAIN, NULL and GSSAPI mechanisms, transports, pollers, timers and the option tables: they would add only easy members or depend on the operating system.
- The engine that this repository builds on top of the library (`src`): its sources for layers and scenes are not part of this model.
