# TChannel, verified

A Dafny model of the core of tchannel-go, with proofs about all inputs, all runs and all
reachable states. It has four parts over one byte-buffer layer.

**Fragmentation and the wire.** Arguments are cut into bounded fragments of length-prefixed
chunks under one running checksum, and reassembled. `Buffers` holds the read and write buffers;
`Chunks` says what a run of fragments means (the chunk lists glued end to start) and when its
checksums and flags are right; `WriterModel`/`FragmentingWriter` and
`ReaderModel`/`FragmentingReader` are the two sides, each a class proved against a function on
values; `ReaderSound` says what a reader accepts, and that nothing but a well-formed message gets
through it; `Arguments` drives them the way the argument helpers do. `Messages`, `MessageCodec` and
`Frames` are messages and frames on the wire; `LazyCallReq`, `LazyRefinesEager`, `CallFrames` and
`OutboundCall` are a call's first frame as a relay sees it; `KeyVals`, `HeaderCopy`, `RelayAppend`
and `RelayedCall` are a relay that appends to arg2 in flight; `EndToEnd` puts caller, relay and
receiver together.

**The relay as a protocol.** `RelayModel` has any number of relayers, each lock-protected or atomic
operation one step, and goroutines as bags of tasks. `RelayLinks`, `RelayPending`, `RelayClose`,
`RelayTimerSafety` and `RelayCover` prove what every run keeps, and `RelayDelivery` and `RelaySettles`
that calls and closes get to their end. `RelayItems` has the tables and timers as the classes they are,
and ties them to the steps.

**Exchanges and shutdown.** `CloseMachine` is the connection's close machine, one read or write at
a time; `ConnectionModel` puts it next to the exchange sets and the check-add-recheck threads.
`ExchangeSafety`, `GracefulClose`, `ExchangeDelivery` and `ChannelClose` prove what every run keeps,
`ConnectionSettles` and `ChannelSettles` when a close gets to its end; `ExchangeSet` has the exchange set as a class.

**Peer selection.** `HeapModel` is Go's binary heap on (score, order), `PeerModel` the peer heap on
top of it, `OrderSwaps` when trading two orders keeps that order, `Fairness` the bound on how long a
peer can be passed over, and `PeerHeap` and `PeerList` the classes.

A checksum algorithm is a function from the bytes added so far to a sum (`Digest`), which is all
that is used of CRC-32 and CRC-32C. Random draws, timer expiry, which case a select takes, which
timer a pool returns and the order in which Go visits a map are parameters or arbitrary choices.
Nothing here runs the original program.

Where the code and its comments disagree the model follows the code: the comment in `Close` of the
fragmenting reader (fragmenting_reader.go:214-217) says that a terminating empty chunk is skipped,
and the code takes it for the next argument; `ReaderModel.CloseAligns` says exactly when that
happens and `ReaderModel.CloseTooEarly` is an instance. The comment on `Channel.Close`
(channel.go:846-849) says that the channel becomes closed when all connections are drained, and the
code can drop that update; `ChannelSettles.LosesExactly` and `ChannelSettles.ClosesWhenDrained` say
when, and `ChannelSettles.LosingKeepsOpen` is an instance.

## Model

| member | source | states |
|---|---|---|
| Buffers.UintRoundTrip | typed/buffer.go:120-146 | an integer written in w bytes reads back as itself modulo 256^w |
| Buffers.BytesRoundTrip | typed/buffer.go:230-249 | the bytes of an integer are the encoding of their value |
| Buffers.BigEndian | typed/buffer.go:120-146 | two bytes are most significant first |
| Buffers.ReadBuffer.ReadBytes | typed/buffer.go:80-94 | a read takes all its bytes or none, and a failed buffer stays failed |
| Buffers.ReadBuffer.ReadLenBytes | typed/buffer.go:153-163 | a length prefix and that many bytes |
| Buffers.WriteBuffer.WriteBytes | typed/buffer.go:223-228 | bytes are appended in place, or the buffer fails and keeps what it had |
| Buffers.WriteBuffer.WriteLenBytes | typed/buffer.go:270-287 | a string too long for its length prefix poisons the buffer |
| Buffers.WriteBuffer.Defer | typed/buffer.go:291-334 | reserved bytes are zero and their place is known |
| Buffers.WriteBuffer.Update | typed/buffer.go:403-437 | filling reserved bytes changes nothing else |
| Chunks.ParseEncode | fragmenting_reader.go:282-296 | splitting an encoded chunk list gives the list back |
| Chunks.EncodeParse | fragmenting_reader.go:282-296 | contents that split cleanly are the encoding of what they split into |
| Chunks.ChainAppend | fragmenting_writer.go:53-63 | two runs of fragments join into one when the second continues the checksum and the flags of the first |
| Chunks.GlueConcat | fragmenting_reader.go:143-186 | the arguments of two runs of fragments are those of the first continued by those of the second |
| Chunks.MessageOf | fragmenting_reader.go:257-314 | fragments with right checksums and flags are a message of the arguments their chunk lists glue to, and split into what was put in |
| WriterModel.BeginWrites | fragmenting_writer.go:164-199 | beginning an argument adds an empty argument to what has been written |
| WriterModel.WriteWrites | fragmenting_writer.go:203-229 | for every capacity a Write adds exactly its bytes to the current argument, terminates, and keeps every checksum right |
| WriterModel.FlushWrites | fragmenting_writer.go:233-247 | flushing changes nothing about what has been written |
| WriterModel.CloseWrites | fragmenting_writer.go:249-300 | closing changes nothing about what has been written, also when it spills an empty chunk into a new fragment |
| WriterModel.WriteTurn | fragmenting_writer.go:209-228 | one turn of the write loop, and that a fresh fragment always has room |
| WriterModel.FirstArgumentWhole | fragmenting_writer.go:249-300 | an argument that fits with room to spare is one chunk and the next starts in the same fragment |
| WriterModel.FollowsWrite | fragmenting_writer.go:203-229 | writing keeps an argument in the first fragment exactly as long as it fits there and nothing was flushed |
| WriterModel.FollowsClose | fragmenting_writer.go:249-300 | closing leaves it there exactly if the next chunk header fits too, and otherwise ends the fragment with it |
| FragmentingWriter.Writer.BeginArgument | fragmenting_writer.go:164-199 | the buffer-level writer does what the model does, with the chunk header reserved |
| FragmentingWriter.Writer.Write | fragmenting_writer.go:203-229 | the loop over fragments refines the model and reports the bytes written |
| FragmentingWriter.Writer.WriteAsFits | fragmenting_writer.go:85-97 | as much as fits is copied and summed |
| FragmentingWriter.Writer.FinishChunk | fragmenting_writer.go:99-101 | the chunk size is filled in and has not wrapped a uint16 |
| FragmentingWriter.Writer.FlushFragment | fragmenting_writer.go:53-63 | a fragment is sent with the running checksum, and marked if more follow |
| FragmentingWriter.Writer.Flush | fragmenting_writer.go:233-247 | ends the chunk and the fragment, and opens the next |
| FragmentingWriter.Writer.Close | fragmenting_writer.go:249-300 | completes the message, or ends the argument and spills if no chunk header fits |
| ReaderModel.FetchReads | fragmenting_reader.go:257-314 | fetching the next fragment of a well-formed message succeeds and loses nothing |
| ReaderModel.ReadReads | fragmenting_reader.go:143-186 | a Read of n bytes yields the next n bytes of the argument across any number of fragments, and EOF exactly at its end |
| ReaderModel.CloseAligns | fragmenting_reader.go:188-253 | Close finds the next argument exactly if a further chunk of the fragment is in hand; otherwise it takes the chunk that ends this argument for the next one |
| ReaderModel.CloseTooEarly | fragmenting_reader.go:205-253 | two one-byte arguments where reading the first byte and closing leaves an empty argument in front of the second |
| ReaderModel.CloseLast | fragmenting_reader.go:188-253 | closing the last argument at its end succeeds exactly if no argument is left |
| ReaderSound.SplitsSomehow | fragmenting_reader.go:282-296 | every contents is some encoded chunks followed by a rest that no chunk can be split off |
| ReaderSound.ParseTail | fragmenting_reader.go:282-296 | splitting finds exactly those chunks, and reports the rest as a chunk too large or a buffer too short |
| ReaderSound.FetchDecides | fragmenting_reader.go:257-314 | a fragment is taken or refused by its bytes: a wrong checksum type, a broken chunk, a checksum that is not that of all bytes so far and no chunk at all each have their error; a taken fragment has its chunks in hand |
| ReaderSound.FetchIff | fragmenting_reader.go:257-314 | fetching succeeds exactly if there is a fragment of the running checksum type that is the encoding of at least one chunk, with the checksum of all bytes so far |
| ReaderSound.ArgsTook | fragmenting_reader.go:113-314 | whatever is read argument by argument to completion was a well-formed message of exactly what was read |
| ReaderSound.ReadsExactly | fragmenting_reader.go:113-314 | reading n arguments succeeds exactly if the fragments start with a well-formed message of n arguments, and yields those |
| ReaderSound.EndsComplete | fragmenting_reader.go:188-253 | it succeeds exactly if the reader ends complete and without an error |
| FragmentingReader.Reader.BeginArgument | fragmenting_reader.go:113-141 | refines the model, with its errors |
| FragmentingReader.Reader.Read | fragmenting_reader.go:143-186 | the loop over chunks and fragments refines the model |
| FragmentingReader.Reader.Close | fragmenting_reader.go:188-253 | refines the model, with its errors |
| FragmentingReader.Reader.RecvAndParseNextFragment | fragmenting_reader.go:257-314 | a fragment is accepted or refused as in the model, for which FetchDecides and FetchIff say when |
| Arguments.WriteArgument | arguments.go:124-142 | one argument, however split into writes and flushes, is one more argument denoted, and it stays whole in an open first fragment exactly if it is not the last, was not flushed and leaves room for the next |
| Arguments.ReadArgument | arguments.go:72-92 | reading one argument to EOF in pieces of any size, checking that it is empty and closing it comes to the value-level ReadArg, errors included |
| Arguments.Send | arguments.go:124-142 | a list of arguments becomes fragments that are one well-formed message of it, each within its capacity |
| Arguments.Receive | arguments.go:72-92 | fragments that start with a well-formed message of so many arguments read back as those and complete, and nothing else completes |
| Arguments.SendAndReceive | fragmenting_reader.go:113-314 | the round trip: every list of arguments, every split into writes and flushes and every capacity reads back exactly |
| Messages.VisitRebuilds | messages.go:183-199 | the pairs of a map written in any order rebuild it |
| Messages.ReadPairsBack | messages.go:183-199 | pairs that fit their prefixes read back whatever follows them |
| Messages.PairsReadAreEncoded | messages.go:183-190 | pairs read without an error are the encoding of what was read |
| Messages.SpanRoundTrip | tracing.go:63-77 | a span is 25 bytes and reads back |
| Messages.SpanLayout | tracing.go:63-77 | the span ID, the parent ID, the trace ID and the flags, at bytes 0, 8, 16 and 24 |
| Messages.CallReqRoundTrip | messages.go:212-227 | a call request reads back for every header order and every time to live, which comes back in whole milliseconds modulo 2^32 |
| Messages.CallReqLayout | messages.go:221-227 | the time to live at byte 0, the span at 4, the service with its length at 29, then the number of headers and the headers |
| Messages.PairsLayout | messages.go:192-199 | each header is the length of its key, its key, the length of its value and its value, right after the one before |
| Messages.TtlKept | messages.go:221-222 | the time to live is kept exactly if it is in whole milliseconds and below 2^32 of them |
| Messages.CallResRoundTrip | messages.go:257-270 | a call response reads back for every header order |
| Messages.CallResLayout | messages.go:265-270 | the response code at byte 0, the span at 1, the number of headers at 26 |
| Messages.ErrorRoundTrip | messages.go:292-304 | an error message reads back |
| Messages.ErrorLayout | messages.go:299-304 | the error code at byte 0, the span at 1, the length of the message at 26 |
| Messages.InitRoundTrip | messages.go:90-114 | an init message reads back for every parameter order |
| Messages.InitLayout | messages.go:104-114 | the version at byte 0, the number of parameters at 2 |
| MessageCodec.WriteMap | messages.go:192-199 | the loop over the headers appends their encoding, or fails exactly if it does not fit or a string is too long |
| MessageCodec.WriteCallReq | messages.go:221-227 | a call request is written whole, or fails exactly if it does not fit or a string is too long |
| MessageCodec.ReadMapFrom | messages.go:183-190 | the loop fills the map that the pairs read denote, later duplicates winning |
| MessageCodec.ReadCallReqFrom | messages.go:212-219 | reads the fields in order and reports the buffer's error |
| MessageCodec.CallReqThroughBuffers | messages.go:212-227 | a call request written into one buffer is read from another |
| Frames.RejectsShortSizes | frame.go:61-69 | the size check works by uint16 wrap-around and rejects exactly the sizes below 16 |
| Frames.HeaderRoundTrip | frame.go:93-109 | a frame header reads back |
| Frames.HeaderLayout | frame.go:102-109 | size at byte 0, type at 2, reserved at 3, ID at 4 and eight zero bytes |
| Frames.FrameRoundTrip | frame.go:135-185 | a frame reads back from the front of a stream and leaves the rest |
| Frames.StreamRoundTrip | frame.go:135-185 | any run of frames written to a stream reads back as the same frames |
| LazyCallReq.NewLazyCallReq | relay_messages.go:180-247 | the relay's parse that advances one read buffer computes the lazy view, with its errors |
| LazyRefinesEager.FieldsAreLookups | relay_messages.go:196-213 | picking routing headers one at a time is a lookup in the whole map, also with repeated keys |
| LazyRefinesEager.SameHeader | relay_messages.go:188-213 | up to the checksum type the lazy and the endpoint's parse read the same and leave the same buffer |
| LazyRefinesEager.LazyAgrees | relay_messages.go:180-316 | whenever the lazy parse succeeds so does the endpoint's, on service, time to live, span, caller, routing fields, scheme, checksum type and first chunks they agree, and no uint16 offset has wrapped |
| LazyRefinesEager.FirstChunksAgree | reqres.go:281-299 | the chunks of the endpoint's contents start with the lazy method and arg2 |
| CallFrames.ParseInboundOf | reqres.go:281-299 | a first frame decodes to the request and the fragment it was built from |
| CallFrames.FirstFrameParses | relay_messages.go:180-247 | a first frame with the method and the start of arg2 is parsed lazily, with arg2 fragmented exactly if arg3 has not started |
| OutboundCall.HeaderBound | calloptions.go:67-89 | the header of a call with the headers a call can carry takes at most 1581 bytes |
| OutboundCall.CallAccepted | outbound.go:365-379 | a call is accepted exactly if it names a service, its method is at most 16384 bytes long and it has a deadline |
| OutboundCall.WriteMethod | outbound.go:191-196 | the method is one chunk of the first fragment, which stays open |
| OutboundCall.SendCall | outbound.go:80-138 | for every call validateCall accepts whose strings fit their prefixes, and whatever is written as arg2 and arg3: its fragments are a message of the three arguments, and a relay finds the whole method in the first frame and the whole of arg2 exactly if arg2 was not flushed and header, checksum, method, arg2 and the start of arg3 fit a frame |
| KeyVals.PairsInIsRead | thrift/arg2/kv_iterator.go:28-83 | iterating is reading as many pairs as the count says |
| KeyVals.AppendsKept | relay.go:787-811 | the receiver finds the old pairs followed by the appended ones exactly if the count does not wrap, keys and values fit their prefixes, and stray bytes after the last pair do not get in the way |
| KeyVals.TrailingBytesLoseAppends | relay.go:801-808 | one stray byte after the last pair loses the appended pair |
| HeaderCopy.SameRequest | relay.go:899-902 | the bytes copied before the checksum type decode to the same request whatever follows them |
| HeaderCopy.ClampedTTL | relay.go:486-490 | capping the time to live changes nothing else in the frame |
| RelayAppend.FirstFragmentIs | relay_messages.go:310-316 | if arg2 is not fragmented the first fragment is method, whole arg2 and the start of arg3 |
| RelayAppend.Arg2OpsWrite | relay.go:787-811 | the writes add up to arg2 with its new count and the appended pairs |
| RelayAppend.FragmentingSend | relay.go:727-760 | refused exactly for a fragmented, non-Thrift or countless arg2; otherwise the fragments sent are a message of method, extended arg2 and the start of arg3, ending with the frame's own more-fragments flag |
| RelayedCall.UpdateInPlace | relay.go:762-785 | a continuation frame's checksum is overwritten in place with the running one |
| RelayedCall.UpdatesContinuation | relay.go:762-785 | a continuation frame with one chunk keeps everything but its checksum |
| RelayedCall.RecheckChain | relay.go:762-785 | re-checksummed fragments continue the message the relay has sent |
| RelayedCall.FirstFrameDecodes | relay.go:881-926 | the rewritten first frame decodes to the caller's request with its time to live capped |
| RelayedCall.MessageIs | relay.go:727-785 | rewritten and forwarded fragments are one well-formed message that differs only in arg2 |
| RelayedCall.ForwardedFirst | relay.go:486-530 | a first frame that is only forwarded decodes to the same request, with its time to live capped, and the same fragment |
| RelayedCall.RelayCall | relay.go:484-531 | a well-formed call, relayed with or without appends and not refused, is sent on as a well-formed call: same request with its time to live capped, same arguments except for the appended pairs, every checksum and more-fragments flag right, every payload within the frame size |
| RelayedCall.ReceiveCall | inbound.go:51-60 | frames that start with a well-formed call are read as its request and its arguments, and nothing else completes |
| EndToEnd.SentIsCall | reqres.go:111-136 | the frames of a message under a call request's header are a well-formed call with that request |
| EndToEnd.RefusalIs | relay.go:727-733 | what the relay tests on the frame comes to conditions on what the caller wrote |
| EndToEnd.RelayedPairs | relay.go:787-811 | the relayed arg2 holds the old pairs followed by the appended ones exactly if the appends are readable |
| EndToEnd.CallThroughRelay | relay.go:425-531 | a call from caller through a relay to receiver, for every such call and every split into writes and flushes: refused exactly if there are pairs to append and arg2 is not whole in the first frame, not Thrift or without a count; otherwise the same request, method and arg3 arrive with the extended arg2, whose pairs are the old and the appended ones exactly if the appends are readable |
| RelayItems.Items.Count | relay.go:119-124 | the number of live items |
| RelayItems.Items.Add | relay.go:146-150 | adds or overwrites an item; the tomb counter stays exact exactly if a tombstone is overwritten just by a tombstone |
| RelayItems.Items.Delete | relay.go:155-171 | removes and returns the item, keeps the tomb counter exact and reports whether a live item went |
| RelayItems.Items.Entomb | relay.go:176-203 | a live item becomes a tombstone to be collected later, or goes if there are too many; the counter stays exact and at most one over its limit |
| RelayItems.RelayTimer.Start | relay_timer_pool.go:99-114 | an inactive timer runs for the given item, by the same update as the pool's |
| RelayItems.RelayTimer.Release | relay_timer_pool.go:145-152 | an inactive timer is released, by the same update as the pool's |
| RelayItems.RelayTimer.Stop | relay_timer_pool.go:127-141 | stopping succeeds exactly if the timer has not fired, and again once stopped |
| RelayItems.RelayTimer.OnTimer | relay_timer_pool.go:51-56 | the timer goes inactive and yields the item it was started for |
| RelayItems.AddOnTable | relay.go:146-150 | the protocol's add step is the table's operation and touches no other table |
| RelayItems.DeleteOnTable | relay.go:155-171 | the protocol's delete step is the table's operation, touches no other table and leaves exactly the deleted item's timer to be released |
| RelayItems.EntombOnTable | relay.go:176-203 | the protocol's entomb step is the table's operation, touches no other table and leaves a collection to be done exactly if it makes a tombstone |
| RelayTimers.StopOk | relay_timer_pool.go:127-141 | stopping keeps the pool's invariant: a start runs at most once and not if reported stopped |
| RelayTimers.RunTriggerOk | relay_timer_pool.go:51-56 | so does running the trigger of a fired timer |
| RelayTimers.GetAndStartOk | relay_timer_pool.go:67-114 | so does starting a timer from the pool, which nobody holds |
| RelayTimers.ReleaseOk | relay_timer_pool.go:145-152 | so does releasing an abandoned one |
| RelayLinks.SoleClaimant | relay.go:484-496 | only one thread is ever about to add a given outbound item, at a key that never held one |
| RelayLinks.LinkedStep | relay.go:425-614 | every step keeps the two items of a call pointing at each other, injectively |
| RelayLinks.NoCrossTalk | relay.go:534-593 | in every run frames that match one item go to one key, come back from it, and no other item forwards there; both items belong to the same call |
| RelayDelivery.FrameArrives | relay.go:534-593 | a frame whose item and whose item on the other side are live, with their timers stoppable if it ends the call, is delivered to the other side by the reader and Receive alone; one that ends the call leaves both items to be finished |
| RelayDelivery.FrameStops | relay.go:534-593 | any other frame is not delivered, and leaves at most a failing or finishing of its own item |
| RelayDelivery.ReachableThrough | relay.go:534-593 | in every run a frame gets through if both items of its call are live with their timers running |
| RelayDelivery.ResponseEnds | relay.go:534-593 | a frame that ends the call is delivered and takes both items with it |
| RelayDelivery.RequestArrives | relay.go:425-531 | a call request between two active connections reserves a slot on both, adds its two items and is delivered under its new ID |
| RelayDelivery.CallRunsThrough | relay.go:425-674 | from any state in which a call can start, for every pair of relayers and every fresh ID, there is a run in which its request is delivered, its response is delivered under the original ID, both items are gone, End is called once more and every pending count is what it was |
| RelayDelivery.RewriteFails | relay.go:484-531 | a call whose arg2 cannot be rewritten ends, its originator is entombed and its count given back, and nothing is delivered |
| RelayDelivery.FailEntombs | relay.go:633-660 | failing a live item makes it a tombstone, or deletes it if there are too many; its count goes down, and the call ends if it is the originator |
| RelayDelivery.TimesOut | relay.go:616-631 | in every run the expiry of its timer does the same |
| RelayDelivery.TurnedAway | relay.go:425-450 | a call that the host does not accept or whose connection is not active ends at once and leaves nothing behind |
| RelayDelivery.NoDestination | relay.go:387-423 | a call with an ID in use, no destination or a destination that is not active ends and gives its slot back |
| RelayPending.CountedStep | relay.go:616-679 | every step keeps the counts of pending calls, tombstones and Ends exact |
| RelayPending.PendingConserved | relay.go:370-385 | in every run pending is live inbound plus live outbound items plus calls reserved and not installed plus calls removed and not decremented, and never negative |
| RelayPending.EndOnce | relay.go:616-674 | in every run End is called at most once, only for a started call, and exactly once as soon as no thread and no live originator item is left to call it |
| RelayPending.TombsBounded | relay.go:155-203 | in every run the tombstone counters are exact and at most one over the configured limit |
| RelayClose.AdvanceIdle | connection.go:791-849 | a step of checkExchanges keeps what its thread relies on and never takes the branch that should never happen |
| RelayClose.InboundClosedIsIdle | connection.go:814-834 | in every run an inbound-closed connection has no live item, no reservation and nothing to decrement, and that branch is never taken |
| RelayClose.InboundClosedForever | relay.go:370-385 | once inbound-closed a connection never relays another call |
| RelaySettles.DrivenStep | connection.go:791-849 | every step keeps a thread on its way to close a closing connection that has nothing pending |
| RelaySettles.ClosesWhenDrained | connection.go:791-849 | in every run whose exchange sets are empty when asked, once nothing is left to do a closing connection without a live item is closed; unless its exchanges were stopped it is closed only then |
| RelaySettles.CloseAlone | connection.go:851-886 | closing an active connection alone ends closed if nothing is pending and both exchange sets are empty, inbound-closed if only outbound ones are left, and waits otherwise |
| RelaySettles.StopAlone | connection.go:791-812 | stopped exchanges close the connection whatever is pending |
| RelayTimerSafety.TimedStep | relay.go:129-203 | every step keeps each fired timer with one OnTimer to come and each abandoned one with one Release |
| RelayTimerSafety.TimersSafe | relay_timer_pool.go:51-158 | in every run no timer method panics, a start runs or is stopped but not both, every item has an unreleased timer of its own, and a pooled timer cannot fire |
| RelayCover.CoveredStep | relay.go:292-368 | every step keeps each live item with a running timer or a goroutine that will end it |
| RelayCover.NoneForgotten | relay.go:534-674 | in every run a live item has an armed timer, or one that has fired with its trigger to come, or a goroutine about to entomb or delete it |
| ExchangeSet.MessageExchangeSet.AddExchange | mex.go:290-301 | refused exactly if shut down or active already; active and expired exchanges stay apart exactly if the ID added has not expired |
| ExchangeSet.MessageExchangeSet.RemoveExchange | mex.go:362-381 | removes the exchange from wherever it is, and calls back exactly if it was there |
| ExchangeSet.MessageExchangeSet.ExpireExchange | mex.go:385-406 | an exchange becomes expired and is no longer active, and the callback is called in any case |
| ExchangeSet.MessageExchangeSet.StopExchanges | mex.go:451-492 | shuts the set and hands out the exchanges to notify, the first time only |
| ExchangeSet.StepsOnSets | mex.go:290-406 | the protocol's steps are the set's operations on one side, leave the other, and start checkExchanges exactly when the callback is called |
| ExchangeSet.StopOnSet | mex.go:451-492 | the protocol's stop step shuts one side and leaves exactly its exchanges to be notified, the first time only |
| ExchangeSafety.LivingStep | mex.go:235-406 | every step keeps each exchange added once, removed once and notified once |
| ExchangeSafety.OnlyForward | mex.go:347-406 | in every run an exchange only moves from active to removed, directly or by way of expired, and nothing is added to a set that has shut down |
| ExchangeSafety.LifeCycle | mex.go:235-492 | in every run no exchange is active and expired, none is removed multiple times, each is notified at most once, and exactly once if it outlives stopExchanges |
| GracefulClose.AdvanceHolds | connection.go:791-849 | a step of checkExchanges goes inbound-closed only with no dispatched call in its set and closes with exactly one thread on its way to close stopCh |
| GracefulClose.GracefulStep | inbound.go:40-80 | every step, whatever it interleaves with, keeps that |
| GracefulClose.CloseWaitsForInbound | inbound.go:40-80 | in every run an inbound-closed connection has no dispatched inbound call in its set |
| GracefulClose.AdvanceCloses | connection.go:791-834 | a step of checkExchanges closes the connection exactly if it is the move for stopped exchanges from the state it read, or the move from inbound-closed after an empty outbound count |
| GracefulClose.CloseWaitsForOutbound | outbound.go:41-78 | in every run, while a call of beginCall is in its set, the steps that close the connection are exactly the moves for stopped exchanges, and the exchanges are stopped |
| GracefulClose.ErrorsDoNotWait | connection.go:571-614 | a run with such a step |
| GracefulClose.StopChClosedOnce | connection.go:836-849 | in every run the state only moves forward and stopCh is closed at most once, when closed |
| CloseMachine.CheckAlone | connection.go:791-849 | checkExchanges run alone, with no stopped exchanges, closes the connection exactly if it was closing, the relay is idle, no outbound exchange is left and (from start-close) no inbound one; it ends inbound-closed exactly if only outbound ones are left or it was and cannot close; stopCh is closed by the check that closes |
| ConnectionSettles.CheckRuns | connection.go:791-849 | as the last task of a connection it has exactly that effect and no other |
| ConnectionSettles.CloseAlone | connection.go:851-886 | so a Close alone ends closed, inbound-closed or start-close according to what is left |
| ConnectionSettles.DrivenStep | connection.go:791-849 | every step keeps a thread on its way to close a closing connection without exchanges |
| ConnectionSettles.ClosesWhenDrained | connection.go:791-849 | in every run whose relay is idle when asked, once nothing is left to do a connection past active without exchanges is closed, with stopCh closed once; unless its exchanges were stopped it is closed only then |
| ConnectionSettles.CallReqAlone | inbound.go:38-80 | a call request with a new ID on an active connection is dispatched and in its set |
| ConnectionSettles.CallReqTurnedAway | inbound.go:38-80 | on a connection that is not active it leaves nothing, and a set that refuses it stops the exchanges |
| ConnectionSettles.BeginCallAlone | outbound.go:38-78 | a call begun on an active connection takes the next ID and is in its set |
| ConnectionSettles.BeginCallIgnored | outbound.go:38-78 | on any other it leaves nothing |
| ConnectionSettles.PingAlone | connection.go:423-436 | a ping takes the next ID in any state, is in its set until answered and then gone with a check to come; a refused one stops the exchanges |
| ConnectionSettles.ExpireAlone | mex.go:385-406 | an expiring exchange moves from active to expired and starts a check |
| ConnectionSettles.ShutdownAlone | mex.go:235-252 | shutting down an exchange notifies it, removes it and starts a check |
| ConnectionSettles.StopNotifiesAll | mex.go:451-492 | in every run with stopped exchanges, once nothing is left to do both sets are shut and every exchange still there was notified once |
| ExchangeDelivery.DoDelivers | mex.go:116-191 | every select case keeps that |
| ExchangeDelivery.FifoDelivery | mex.go:116-191 | in every run frames are received first in first out with none skipped and within the capacity; a context error comes only with the context done, an exchange error only once notified and with no frame queued (for a receiver) or the queue full (for a forwarder) |
| ExchangeDelivery.NoneLost | mex.go:116-191 | in every run each frame was handed over as often as it was accepted, reported failed or is still being forwarded, and each receive took a frame, reported failed or is still waiting |
| ExchangeDelivery.ForwardAlone | mex.go:116-157 | a forward that ends undisturbed reports a context error if the context is done, otherwise has its frame last in the queue if there is room, and otherwise reports the exchange error |
| ExchangeDelivery.ForwardEnds | mex.go:116-157 | and it can end exactly as soon as one of these is the case |
| ExchangeDelivery.ReceiveAlone | mex.go:159-191 | likewise a receive: a context error, the first frame of the queue, or the exchange error |
| ExchangeDelivery.ReceiveEnds | mex.go:159-191 | and it can end as soon as one of these is the case |
| ChannelClose.DoSound | channel.go:747-817 | every step of connectionCloseStateChange keeps what the channel's state promises about its connections |
| ChannelClose.ChannelCloses | channel.go:747-888 | in every run a closed channel tracks only closed connections, an inbound-closed one only inbound-closed or closed ones, closed is final and ch.closed is closed at most once |
| ChannelClose.GoesBackOnlyByClose | channel.go:850-888 | in every run a step lowers the channel's state exactly if it is a Close of an inbound-closed channel with a connection left |
| ChannelSettles.CloseGoesBack | channel.go:850-888 | a run that reaches such a channel |
| ChannelSettles.LosesExactly | channel.go:799-810 | in every run the recheck drops an update the channel still needs exactly if it is an update to closed and the channel is neither in the state read for it nor closed |
| ChannelSettles.DrivenStep | channel.go:747-817 | every step that loses no update keeps a task about to remove each closed connection, and one about to close the channel once all are closed |
| ChannelSettles.ClosesWhenDrained | channel.go:846-888 | in every run without a lost update, once nothing is left to do a closing channel is closed exactly if it tracks no connection |
| ChannelSettles.LosingKeepsOpen | channel.go:799-810 | a run that loses one and ends with the channel inbound-closed, no connection and nothing left to do |
| HeapModel.UpOrders | peer_heap.go:44-49 | sifting up restores the order of every key that (score, order) refines |
| HeapModel.DownOrders | peer_heap.go:44-49 | sifting down does, or leaves the heap alone |
| HeapModel.PopOrders | peer_heap.go:66-74 | popping keeps the order and takes a least entry |
| HeapModel.RemoveOrders | peer_heap.go:81-84 | removing from anywhere keeps the order |
| HeapModel.RemovePermutes | peer_heap.go:81-84 | and removes that entry and no other |
| HeapModel.RootLeast | peer_heap.go:86-89 | the root is least under every key the heap is ordered by |
| PeerModel.SwapOrderKeepsScores | peer_heap.go:100-108 | trading the orders of two peers keeps the heap ordered by score |
| OrderSwaps.FixIgnores | peer_heap.go:100-108 | fixing one slot does not depend on what is in another unless the sifted entry reaches it |
| OrderSwaps.SwapOrderKeepsOrder | peer_heap.go:100-108 | trading the orders of two slots of an ordered heap leaves it ordered exactly if the scores differ or the entry fixed first does not pass the other slot, a condition on the heap before |
| OrderSwaps.AddKeepsOrder | peer_heap.go:91-117 | adding a peer keeps the heap ordered exactly if the trade after the push does |
| OrderSwaps.SwapOrderBreaksTies | peer_heap.go:100-108 | the smallest heap whose order is lost: orders 1, 2, 3, 4 become 1, 4, 3, 2 |
| PeerModel.ChooseMembers | peer.go:177-215 | choosing finds a peer exactly if one is eligible and changes nothing but the chosen peer's order |
| PeerModel.ChooseLeast | peer.go:177-215 | it takes one of least score and keeps every refined order |
| Fairness.SelectStep | peer_heap.go:91-98 | each selection lowers the potential of a waiting peer |
| Fairness.RunOrders | peer_heap.go:91-117 | in every run no order is further ahead of the counter than the jitter of the largest heap |
| Fairness.BoundedBypass | peer_heap.go:91-117 | in any reachable heap of n equally scored peers that never held more than N, every peer is chosen within n + (N - 1) / 2 consecutive selections |
| PeerHeap.Heap.Up | peer_heap.go:51-56 | sifting up in place refines the model and keeps index fields equal to positions |
| PeerHeap.Heap.Down | peer_heap.go:51-56 | so does sifting down |
| PeerHeap.Heap.Fix | peer_heap.go:76-79 | so does Fix, which does nothing for the stale index -1 |
| PeerHeap.Heap.Push | peer_heap.go:58-64 | so does pushing |
| PeerHeap.Heap.Pop | peer_heap.go:66-74 | so does popping, which sets the index to -1 |
| PeerHeap.Heap.Remove | peer_heap.go:81-84 | so does removing |
| PeerHeap.Heap.PushPeer | peer_heap.go:91-98 | a peer is put back behind the counter plus jitter |
| PeerHeap.Heap.SwapOrder | peer_heap.go:100-108 | the orders of two positions are traded and both fixed |
| PeerHeap.Heap.AddPeer | peer_heap.go:111-117 | a peer is pushed and trades its order with a random one |
| PeerList.GetHost | retry.go:262-269 | everything before the first colon |
| PeerList.CanChooseIs | peer.go:177-191 | a peer may be chosen exactly if its host:port was not selected before and, while hosts are avoided, neither was its host |
| PeerList.ChooseEligible | peer.go:177-215 | choosing finds a peer exactly if one of those is in the heap, and then a least-scored one of them |
| PeerList.GetNewFromTier | peer.go:124-141 | GetNew finds a peer exactly if some listed host:port was not selected before, and then a least-scored one of those whose host was not either, or if there is none of those whose host:port was not |
| PeerList.GetFromTier | peer.go:145-159 | Get, whatever happens to the list between its two locks: fails at once on an empty list, takes a least-scored peer of the first tier if some host:port is new, and otherwise a least-scored peer of the list it then finds |
| PeerList.GetUndisturbed | peer.go:124-159 | if nothing happens in between, Get finds a peer exactly if there is one, a least-scored one of the first non-empty of new hosts, new host:ports and everyone |
| PeerList.PeerList.Add | peer.go:102-121 | adds a peer unless it is there, and keeps map and heap in bijection |
| PeerList.PeerList.Remove | peer.go:162-176 | removes the peer from both, or reports that it is not there |
| PeerList.PeerList.UpdatePeer | peer.go:286-293 | a changed score moves that peer, and a peer removed meanwhile is left alone |
| PeerList.PeerList.ChoosePeer | peer.go:177-215 | no peer exactly if every host:port was selected before (or, while hosts are avoided, its host was), otherwise a least-scored one of the others; every other peer keeps its order and score |
| PeerList.PeerList.GetNew | peer.go:124-141 | ErrNoPeers exactly for an empty list, ErrNoNewPeers exactly if every host:port was selected before; otherwise a least-scored peer whose host:port was not, and whose host was not if there is such a peer |
| PeerList.PeerList.Get | peer.go:145-159 | with any operations of other goroutines on the list between its two locks: none for an empty list, otherwise as GetNew if some host:port was not selected before, and otherwise a least-scored peer of the list it then finds |

## Left out

- Sockets, dialing, TLS and the handshake's network I/O; a failed send or receive is a choice of the environment.
- Logging, statistics, introspection and OpenTracing; a span is kept as its 25 bytes.
- JSON, Thrift, HTTP and raw handlers, retries, subchannels, idle sweeps and health checks.
- CRC-32 and CRC-32C themselves, and Farmhash, which the code treats as no checksum.
- Frame pools: which frame buffer is released when.
- Peer connection lists and the removal of peers from the root list.
- newLazyCallRes, which is newLazyCallReq with fewer fields, and continuation frames of responses.
- Liveness and real time: runs are finite and timers expire whenever they like.
- RelayModel: message IDs are never reused on a connection and do not wrap around after 2^32, and an item is added and its timer started in one step, which no other goroutine can come between because it does not know the ID yet.
- RelayModel, ConnectionModel, ChannelClose and ExchangeDelivery are state machines on values; where a goroutine has several things left to do they may run in any order, which allows more runs than the code has.
- ConnectionModel: whether the relay is idle is arbitrary here; that an inbound-closed connection has an idle relay is RelayClose.InboundClosedIsIdle.
- ExchangeSafety.LifeCycle: the peer may send a message ID again while its exchange is active, and is refused, but is taken not to reuse one whose exchange has expired or gone.
- GracefulClose.CloseWaitsForOutbound: for calls only, because ping adds its exchange without looking at the state; GracefulClose.AdvanceCloses has every closing step.
- ReaderSound.ReadsExactly: the fragments are as parsing a frame yields them, with one of the four checksum type codes, a checksum of that type's size and contents below 2^16 bytes.
- ReaderSound.FetchIff: contents are below 2^16 bytes, because a frame's size field has 16 bits.
- RelayDelivery.FrameArrives: the destination's send buffer has room; a full one fails both items, which is in RelayCover.
- ConnectionSettles.ClosesWhenDrained: the relay is idle whenever it is asked; RelaySettles.ClosesWhenDrained has the relay's side, with empty exchange sets.
- ConnectionSettles.ShutdownAlone: for an exchange that has not been shut down or notified; ExchangeSafety.LifeCycle has every interleaving.
- ChannelSettles.ClosesWhenDrained: a channel can also be closed in a run that has lost an update, because a later callback or Close may make up for it.
- Frames and Messages are modelled on values except for the header loops and call requests in MessageCodec; the frame's own buffer, which aliases header and payload, is not.
- Messages.CallReqRoundTrip: a negative time to live is not modelled, because beginCall refuses anything under a millisecond.
- RelayedCall.RelayCall: the checksum type is one of none, CRC-32 and CRC-32C, and Receive on the destination accepts every frame; a refused frame fails the call, which is in RelayModel.
- Fairness.BoundedBypass: the 64-bit order counter is taken not to wrap around.
