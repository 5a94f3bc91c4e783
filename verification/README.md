# Verified model of rtunnel's protocol core

rtunnel is a multi-protocol proxy. This project models the parts of it where state, bytes and
concurrency meet, and proves what they promise:

* **TUIC v5** (`src/protocol/tuic/`): the command codec, UDP fragmentation and reassembly, the send
  queues of both sides, and the server connection with its unauthenticated budget and replay.
* **AnyTLS** (`src/protocol/anytls/`): the client's session pool under arbitrary interleaving, the
  padding writer, the server's frame dispatch, the chunked reader of UDP-over-TCP streams, the
  negotiation of padding schemes, and the HTTP fallback.
* **SOCKS5** (`src/protocol/socks5/`): the address grammar, requests, UDP packets, and the UDP
  association.

Code that computes is modelled by functions, and so are the steps of a protocol. Code that updates
objects in place, or variables in a loop, is modelled by classes and methods proved against those
functions, driven over whole sequences of events, so that the theorems about runs are about them
too. A class invariant that mentions ghost history (`history`, `heard`, `log`, `submitted`, `emitted`)
speaks about every run of the object.

What is outside the program is a parameter: clocks are natural numbers of milliseconds, the QUIC
transport is an arbitrary function from call numbers to answers, a channel that may be full is a
nondeterministic choice, and the outcome of a dial or a write is part of the event that causes it.
Hash functions and tokens are data or function parameters. Integers are unbounded except where the
width matters: stream ids, packet counters and length fields wrap or are refused as in the program.

## Layout

| file | modules |
|---|---|
| `Bytes.dfy`, `Arithmetic.dfy` | integers on the wire, UTF-8 (section 4 of RFC 3629), flattening, division |
| `Addresses.dfy` | the address grammar in its three dialects; SOCKS5 requests and UDP packets |
| `TuicCodec.dfy` | TUIC headers, CONNECT, UDP packets, fragmentation |
| `TuicAssembler.dfy` | the fragment assembler, projection to one key, reassembly |
| `TuicHistory.dfy` | every outcome of the assembler told from the packets pushed before it |
| `TuicSend.dfy` | the send queue of the client's UDP side and of the server |
| `TuicEndToEnd.dfy` | queue, wire, parser and assembler together |
| `TuicStream.dfy` | one client stream, live and deferred |
| `TuicConnection.dfy`, `TuicInbound.dfy` | the server connection as a pure machine, and the object that refines it |
| `TuicUdp.dfy` | UDP over a whole connection, live and deferred |
| `AnytlsSelect.dfy`, `AnytlsScan.dfy` | choosing a session on a snapshot, and balance; the scans of the pool choose the same |
| `AnytlsPool.dfy` | the session pool as interleaved atomic steps |
| `AnytlsAccounting.dfy` | what a session's counter means |
| `AnytlsLimits.dfy` | the limits on streams and connections |
| `AnytlsClosing.dfy` | expiry and closing |
| `AnytlsSweep.dfy` | what a sweep of the pool removes |
| `AnytlsRuns.dfy` | two runs of the pool that break what one might expect |
| `AnytlsFrames.dfy` | frames, shaping, the padding writer |
| `AnytlsServer.dfy` | frame dispatch, isolation of streams, acknowledgements |
| `AnytlsStreams.dfy` | what each stream of a session carries, both ways, and when a session ends |
| `AnytlsChunks.dfy` | the chunked reader and UDP-over-TCP packets |
| `AnytlsSettings.dfy` | settings text and the padding negotiation |
| `AnytlsFallback.dfy` | the client hello and the fallback reader |
| `UdpAssociation.dfy` | the SOCKS5 UDP association |

## Findings

Some expected properties do not hold of the code. Each is stated with the exact condition under
which it does.

* A stream that ends empty before authentication is dropped by the replay, while live it ends the
  connection (`TuicStream.EmptyFinDiffers`; in every other case the two agree).
* `select` scans the counters twice. The pool stays within its limit on connections if and only if no
  selection adds a session after seeing a full pool all busy at the first scan and all idle at the
  second (`AnytlsLimits.LimitHoldsExactlyWhen`), and `AnytlsRuns.LimitCanBeExceeded` is a run with a
  limit of one and a pool of two.
* A session's counter is the number of its streams if and only if no insertion has overwritten a
  stream whose id came round again (`AnytlsAccounting.CounterExactlyWhen`). Then the map has lost the
  stream and the counter keeps it. `AnytlsRuns.CounterCanBreak` is a run of 2^32 + 1 draws that ends so.
* A session closed after a reservation has passed its check still hands out a stream
  (`AnytlsClosing.CloseMayOvertakeReservation`).
* The client joins the lines of a padding update, so a scheme text with CR LF, or one that ends in
  LF, is rebuilt differently, and the server sends the update again on every connection
  (`PaddingNegotiation.ClientRebuildsText`, `PaddingNegotiation.UnfaithfulNeverSettles`).

## Model

| member | source | states |
|---|---|---|
| `TuicAssembler.FragmentRoundTrip` | src/protocol/tuic/codec.rs:158-317 | a whole addressed packet, cut to any limit that works, encoded, parsed and pushed in any order, with repeats and any other keys' traffic in between, comes out exactly once, unchanged, at the last missing piece |
| `TuicAssembler.KeysAreIndependent` | src/protocol/tuic/codec.rs:257-324 | over any run of pushes and evictions, the results one key sees are those of an assembler fed only that key's packets and the evictions more eager than a push's own, although every push evicts across all keys |
| `TuicAssembler.PushDelivers` | src/protocol/tuic/codec.rs:263-317 | groups stay well formed, a failed push changes nothing, a group is delivered exactly when it is full and addressed, and no part of a group is ever discarded |
| `TuicAssembler.AllPresent` | src/protocol/tuic/codec.rs:291-305 | counting fragments is enough: as many distinct ids as the total are all the ids |
| `TuicAssembler.AllArrive` | src/protocol/tuic/codec.rs:263-317 | the pieces of a packet, whole or cut, in any order with repeats, deliver it once and leave no group behind |
| `TuicAssembler.PacketAssembler.PushAt` | src/protocol/tuic/codec.rs:263-317 | the in-place update, including the loop that removes fragments one by one, computes the specified groups and result |
| `TuicAssembler.PacketAssembler.Push` | src/protocol/tuic/codec.rs:257-261 | a push first evicts every idle group, then records the fragment |
| `TuicAssembler.PacketAssembler.EvictIdle` | src/protocol/tuic/codec.rs:319-324 | exactly the groups idle for the timeout go, and their number is returned |
| `TuicHistory.PushExplained` | src/protocol/tuic/codec.rs:257-324 | whatever was pushed and evicted before and whenever, a push yields what that history calls for: a whole packet as it is; an error if it announces another number of fragments than those gathered; the packet once all of its fragments are there, with the payload and address that came last under each id; else nothing; and a gathering that nothing joins for 30 seconds is given up |
| `TuicHistory.HistoryExplainsGroups` | src/protocol/tuic/codec.rs:257-324 | after any run the group of a key holds exactly what the history has gathered for it |
| `TuicEndToEnd.Transfer` | src/protocol/tuic/outbound.rs:527-575 | whole packets queued, drained to a transport that takes them, parsed and pushed come out as exactly those that can be cut, unchanged and in order; and the queue drains if the transport never refuses |
| `TuicEndToEnd.PacketsArrive` | src/protocol/tuic/outbound.rs:527-575 | for any queue of whole packets and any limit, the datagrams they stand for, parsed and pushed in order, deliver exactly the packets that can be cut, unchanged and in order |
| `TuicEndToEnd.Receive` | src/protocol/tuic/codec.rs:196-317 | the receiving loop, with the assembler updated in place, delivers what the run of its pushes delivers |
| `TuicEndToEnd.OnePacket` | src/protocol/tuic/codec.rs:126-317 | the datagrams of one packet bring it out of an empty assembler and leave the assembler empty |
| `TuicCodec.HeaderRoundTrip` | src/protocol/tuic/codec.rs:340-378 | every header that can be marshalled is parsed back with its exact length, whatever follows |
| `TuicCodec.HeaderStable` | src/protocol/tuic/codec.rs:340-350 | a verdict on a header does not change when more bytes arrive |
| `TuicCodec.ConnectStable` | src/protocol/tuic/codec.rs:81-94 | the same of the incremental CONNECT parser, so the cutting of a stream into chunks cannot change its target |
| `TuicCodec.ConnectPrefixes` | src/protocol/tuic/codec.rs:69-114 | an encoded CONNECT is found with its exact length before any payload, and every strict prefix asks for more instead of failing |
| `TuicCodec.PacketRoundTrip` | src/protocol/tuic/codec.rs:126-224 | every packet that encodes is parsed back, and bytes after its declared size are ignored |
| `TuicCodec.PacketReencodes` | src/protocol/tuic/codec.rs:126-224 | whatever parses as a packet encodes to the bytes it was read from |
| `TuicCodec.PacketSize` | src/protocol/tuic/codec.rs:126-155 | exactly which packets encode, and the length of their encoding |
| `TuicCodec.CutExactlyWhen` | src/protocol/tuic/codec.rs:158-194 | cutting succeeds if and only if the packet fits, or is whole and its payload is at most 255 times the room its header leaves |
| `TuicCodec.FragmentsFitAndRebuild` | src/protocol/tuic/codec.rs:158-194 | every fragment encodes within the limit, the fragments are numbered and announce their total, only the first is addressed, and their payloads concatenate to the original |
| `TuicCodec.ChunkCount` | src/protocol/tuic/codec.rs:172-189 | the ceiling division announced as total is the number of slices made |
| `TuicUdpSend.UdpOutbound.ProcessWrites` | src/protocol/tuic/outbound.rs:527-575 | a drain ends; every datagram sent fits; what was sent followed by what is still owed is what was owed; writes remain only because the transport is full; it fails only for an unencodable packet, a limit below a heartbeat, or a broken transport |
| `TuicUdpSend.UdpOutbound.CutToFit` | src/protocol/tuic/outbound.rs:541-556 | replacing an oversized packet by its fragments, or dropping it, keeps the datagrams owed and leaves nothing oversized |
| `TuicServerSend.WriteQueue.ProcessWrites` | src/protocol/tuic/inbound.rs:574-686 | a drain ends; every stream has received, or is owed, in order, exactly what was enqueued for it; datagrams sent and owed are those that were owed, each within the limit; writes remain only because the transport stalled, a FIN alone never stalls, and it fails only because the transport broke |
| `TuicServerSend.WriteQueue.StreamStep` | src/protocol/tuic/inbound.rs:576-674 | partial acceptance at any byte keeps every stream's account, the number of a message is settled once, and an empty FIN that finds no room counts as delivered |
| `TuicServerSend.WriteQueue.DatagramStep` | src/protocol/tuic/inbound.rs:606-640 | sending, keeping or cutting a datagram keeps the account of all streams and the datagrams owed, and makes progress |
| `TuicServerSend.WriteQueue.CutFirst` | src/protocol/tuic/inbound.rs:618-636 | fragments take the place of their datagram at the front, none of them oversized, and no stream is affected |
| `TuicServerSend.WriteQueue.CloseStep` | src/protocol/tuic/inbound.rs:675-682 | a close is one write of its stream and disturbs no other |
| `TuicServerSend.WriteQueue.Enqueue` | src/protocol/tuic/inbound.rs:570-572 | a write handed over extends the history and what is owed |
| `TuicServerSend.MessageHasItsOwnStream` | src/protocol/tuic/inbound.rs:641-674 | a uni-stream message has one stream number for good, 3 mod 4, and that stream is only ever owed that message and its FIN |
| `TuicServerSend.LaterNumbersDiffer` | src/protocol/tuic/inbound.rs:641-674 | a message handed over later gets a larger number |
| `TuicServerSend.ClientStreamOwed` | src/protocol/tuic/inbound.rs:576-686 | a client stream is owed exactly the data written for it, in order, its FINs and its closing, and nothing of other streams or messages |
| `TuicStream.DeferredEqualsLive` | src/protocol/tuic/inbound.rs:241-405 | however a stream is cut into chunks and whenever authentication succeeds, deferring gives the same survival, target, bytes and end as serving live |
| `TuicStream.EmptyFinDiffers` | src/protocol/tuic/inbound.rs:261-266 | the one exception, an empty stream that ended before authentication, and that the two always differ there |
| `TuicStream.FeedSettles` | src/protocol/tuic/inbound.rs:345-405 | fed chunk by chunk, a stream is accepted exactly when the whole of it is acceptable, and then the state is the one the whole demands |
| `TuicStream.LiveDataSettles` | src/protocol/tuic/inbound.rs:357-405 | the same of one chunk |
| `TuicConnection.NothingServedUnidentified` | src/protocol/tuic/inbound.rs:241-460 | over any traffic nobody is authenticated unless a complete command identifies a configured user, and until then no packet is assembled and no association exists |
| `TuicConnection.BudgetCoversAllTraffic` | src/protocol/tuic/inbound.rs:224-239 | an unauthenticated connection has spent exactly the bytes it sent, over all its streams and datagrams, and never more than the limit |
| `TuicConnection.RetainedExactlyWhen` | src/protocol/tuic/inbound.rs:224-239 | client streams and packets sent before authentication are all retained if and only if they come before the deadline, hold at most 256 KiB and make at most 256 entries in all |
| `TuicUdp.UdpOverConnection` | src/protocol/tuic/inbound.rs:241-460 | over any traffic, with authentication at any point of it, the relays have been offered exactly what the assembler delivers of the commands completed before, then of the datagrams received before, all pushed at the moment of authentication, then of the rest as it came, each in the mode it came in; every association is bound to the mode of what it was offered since it last ended, and to one mode only |
| `TuicUdp.DeferredUdpEqualsLive` | src/protocol/tuic/inbound.rs:241-260 | to authenticate is to have been authenticated without retaining anything and to read, at that moment, the retained commands as streams that finish at once and then the retained datagrams; it yields that very state and fails exactly where that run fails, or for lateness, an unidentified user or a client stream that cannot be replayed |
| `TuicUdp.LiveUdp` | src/protocol/tuic/inbound.rs:317-460 | over any surviving run of an authenticated connection the packets offered are those the assembler delivers when pushed all PACKET commands and datagrams read, in order, in the mode of the read that completes each, and DISSOCIATE ends associations in between |
| `TuicUdp.LiveFailsExactlyWhen` | src/protocol/tuic/inbound.rs:317-460 | a command or datagram ends an authenticated connection if and only if it is malformed, the assembler refuses it, or it completes a packet of an association bound to the other mode |
| `TuicUdp.OfferedAreDelivered` | src/protocol/tuic/inbound.rs:424-460 | the packets offered to relays are the packets delivered by the assembler, no more and no fewer |
| `TuicUdp.Retains` | src/protocol/tuic/inbound.rs:317-422 | before authentication all commands and datagrams are retained, each kind in order, nothing else is, and none is served |
| `TuicUdp.HoldsOwnChunks` | src/protocol/tuic/inbound.rs:274-315 | what is held of a unidirectional stream is the concatenation of its own chunks, and an authentication is taken exactly when it is complete |
| `TuicConnection.FindUser` | src/protocol/tuic/inbound.rs:244-250 | a user is found if and only if the first one with that uuid has that token, and it is that user |
| `TuicInbound.ProcessReads` | src/protocol/tuic/inbound.rs:529-565 | any traffic takes the object through the states of the pure machine with its invariant kept; it stops at the first read where the machine fails, or at one that, once authenticated, hands data to the full channel of a stream being relayed |
| `TuicInbound.RelayDependsOnlyOnWhatWasHeard` | src/protocol/tuic/inbound.rs:345-405 | two surviving authenticated connections that heard the same of a stream gave its relay the same target, bytes and end, whenever each was authenticated and whatever else it heard |
| `TuicInbound.TuicApp.constructor` | src/protocol/tuic/inbound.rs:191-215 | a new connection satisfies the invariant and is the one that has read nothing |
| `TuicInbound.TuicApp.ReservePreAuth` | src/protocol/tuic/inbound.rs:224-239 | booking refines the pure budget, and its subtractions cannot underflow |
| `TuicInbound.TuicApp.HandleAuthData` | src/protocol/tuic/inbound.rs:241-272 | succeeds exactly in time, for an identified user, with nothing retained that fails on replay; then nothing is retained, every stream stands as if it had been live, and the UDP state is that of the step which `TuicUdp.DeferredUdpEqualsLive` proves equal to live reading |
| `TuicInbound.TuicApp.ReplayStreams` | src/protocol/tuic/inbound.rs:261-267 | in any order of replay all streams end as their history demands, and it succeeds exactly when each is empty or acceptable |
| `TuicInbound.TuicApp.ReplayUdp` | src/protocol/tuic/inbound.rs:253-260 | the loops over retained commands and datagrams compute the replay of both, in order, which `TuicUdp.UdpOverConnection` describes by what the assembler delivers of them |
| `TuicInbound.TuicApp.HandleUnidirectionalStream` | src/protocol/tuic/inbound.rs:274-315 | collects a command over chunks, refuses data after an authentication, keeps the budget exact, and refines the pure step |
| `TuicInbound.TuicApp.HandleUnidirectionalCommand` | src/protocol/tuic/inbound.rs:317-343 | retains or executes a command exactly as the pure step, bytes already booked staying booked |
| `TuicInbound.TuicApp.HandleStreamData` | src/protocol/tuic/inbound.rs:345-405 | retains a chunk under the budget, or brings its stream to the state the whole demands and leaves all others alone |
| `TuicInbound.TuicApp.LiveChunk` | src/protocol/tuic/inbound.rs:357-405 | the three ways to handle a live chunk compute the specified view of the stream |
| `TuicInbound.TuicApp.HandleDatagram` | src/protocol/tuic/inbound.rs:407-422 | accepts exactly what the pure step accepts and offers what it offers, with the invariant kept; `TuicUdp.LiveUdp` and `TuicUdp.Retains` say what that is, live and before authentication |
| `TuicInbound.TuicApp.HandlePacket` | src/protocol/tuic/inbound.rs:424-460 | assembles a packet, binds its association to one relay mode, refuses another, and hands the request over or drops it |
| `TuicInbound.TuicApp.HandleDissociate` | src/protocol/tuic/inbound.rs:336-340 | removes exactly the named association |
| `AnytlsAccounting.StreamAccounting` | src/protocol/anytls/outbound.rs:478-547 | in every interleaving of openers, closers, releases and the cleaner, no stream is released twice, none is in two places, and an open session's counter is the number of streams reserved, mapped, being released or overwritten |
| `AnytlsAccounting.CounterExactlyWhen` | src/protocol/anytls/outbound.rs:323-326 | over every run, an open session's counter is the number of streams it carries if and only if no insertion found its id in the map, which takes more than 2^32 draws |
| `AnytlsRuns.CounterCanBreak` | src/protocol/anytls/outbound.rs:478-485 | a run from the start, of 2^32 + 1 draws, after which an open session counts two streams and carries one |
| `AnytlsAccounting.StepKeepsInv` | src/protocol/anytls/outbound.rs:208-262 | every atomic step keeps the accounting invariant |
| `AnytlsAccounting.SwapSound` | src/protocol/anytls/outbound.rs:531-547 | one turn of the compare-and-swap loop either takes one off an exact counter and ends the release, or retries with the count it saw |
| `AnytlsLimits.StreamLimitHolds` | src/protocol/anytls/outbound.rs:103-152 | with a stream limit no open session ever carries more streams, in every interleaving of the two scans with everything else |
| `AnytlsLimits.LimitHoldsExactlyWhen` | src/protocol/anytls/outbound.rs:103-262 | over every run, the pool stays within its connection limit if and only if no selection adds a session after reading a full pool all busy and then all idle |
| `AnytlsLimits.ConnectionBound` | src/protocol/anytls/outbound.rs:103-262 | over every run, the pool exceeds its connection limit by no more than the number of such selections |
| `AnytlsLimits.RaceEmptiesPool` | src/protocol/anytls/outbound.rs:103-152 | for such a selection every pooled session had a stream when the lock was taken and none has one when it connects |
| `AnytlsRuns.LimitCanBeExceeded` | src/protocol/anytls/outbound.rs:208-262 | a run from the start, with a limit of one connection, that ends with two pooled sessions |
| `AnytlsLimits.HolderCanMove` | src/protocol/anytls/outbound.rs:208-262 | whoever holds the pool lock always has a next step |
| `AnytlsScan.UndisturbedSelection` | src/protocol/anytls/outbound.rs:103-152 | scans that nothing interrupts, read by read and comparison by comparison, choose the session specified on a snapshot, or nothing exactly if there is none |
| `AnytlsClosing.ExpiryIsSafe` | src/protocol/anytls/outbound.rs:74-101 | the cleaner never closes an open session with a stream in any stage of its life, and what it closes hands out no more |
| `AnytlsClosing.ClosedHandsOutNothing` | src/protocol/anytls/outbound.rs:478-485 | once closed with no reservation past its check, a session never hands out another stream |
| `AnytlsClosing.CloseMayOvertakeReservation` | src/protocol/anytls/outbound.rs:478-485 | that condition is needed: any reservation past its check, before or after its draw, still hands out a stream after a close, unless its id is refused |
| `AnytlsClosing.ClearEmpties` | src/protocol/anytls/outbound.rs:512-529 | clearing a closed session leaves it without streams and with its counter at zero, and leaves alone one that has none |
| `AnytlsSweep.UndisturbedSweep` | src/protocol/anytls/outbound.rs:74-101 | a sweep that nothing interrupts removes from the pool exactly the sessions that were closed, or idle for longer than the timeout, when it began, closes those, and changes nothing else |
| `AnytlsSweep.SweepClears` | src/protocol/anytls/outbound.rs:74-101 | whatever happens meanwhile, a session closed when a sweep begins is out of the pool when it ends |
| `AnytlsSweep.FoundClosedIsDiscarded` | src/protocol/anytls/outbound.rs:208-262 | an opener that finds its pooled session closed has it removed before it looks again |
| `AnytlsSweep.RefusedClosedIsDiscarded` | src/protocol/anytls/outbound.rs:208-262 | so has one that could draw no id from a session that turns out closed |
| `AnytlsSweep.OnlyClosedLeave` | src/protocol/anytls/outbound.rs:74-101 | over every run a session leaves the pool only closed |
| `AnytlsSweep.UsedWhenTouched` | src/protocol/anytls/outbound.rs:460-476 | over every run the time that selection and expiry go by is that of the last touch |
| `AnytlsSelect.PoolIsBalanced` | src/protocol/anytls/outbound.rs:103-152 | after any number of openings with nothing closed, the pool has as many connections as it may use, and each carries the mean rounded down or, only if the division leaves a remainder, up |
| `AnytlsSelect.ConnectOnlyWhenNeeded` | src/protocol/anytls/outbound.rs:103-120 | on a snapshot, a connection is opened if and only if no session is idle and the pool is below its limit, or all sessions are at theirs |
| `AnytlsSelect.FreshestIdle` | src/protocol/anytls/outbound.rs:122-128 | the idle session used last, the later one among equals, or none only if none is idle |
| `AnytlsSelect.LeastBusy` | src/protocol/anytls/outbound.rs:137-152 | a busy session below the limit with the fewest streams, of equals the one used last, or none only if there is none such |
| `AnytlsWriter.PaddingIsTransparent` | src/protocol/anytls/outbound.rs:670-731 | in every state, under any plans, the wire is a whole number of frames, and without waste it is, followed by the buffer, exactly the submitted frames |
| `AnytlsWriter.ShapedUntilStop` | src/protocol/anytls/outbound.rs:707-731 | under one plan exactly the packets numbered from 1 to one less than its stop are shaped, each by the steps of its own number, and none after |
| `AnytlsWriter.ClientWriter.WriteConn` | src/protocol/anytls/outbound.rs:707-731 | one packet goes out shaped by the plan while the counter is below its stop, failing exactly when the steps cannot be met, and as it is for good afterwards |
| `AnytlsWriter.ClientWriter.WriteFrame` | src/protocol/anytls/outbound.rs:696-705 | the buffered frames and this one reach the wire, in order, with only waste added |
| `AnytlsWriter.ClientWriter.BufferFrame` | src/protocol/anytls/outbound.rs:690-694 | a frame is held back exactly if it can be encoded |
| `AnytlsFrames.ShapeIsTransparent` | src/protocol/anytls/codec.rs:321-361 | the records, joined, are the payload followed by whole waste frames, whatever the steps |
| `AnytlsFrames.ShapeHidesContent` | src/protocol/anytls/codec.rs:321-361 | the sizes of the records, and whether shaping succeeds, depend only on the length of the payload |
| `AnytlsFrames.ShapeSucceeds` | src/protocol/anytls/codec.rs:312-361 | steps whose sizes fit a frame can always be met |
| `AnytlsFrames.RecordLength` | src/protocol/anytls/codec.rs:335-353 | a record has the size of its step whenever cutting or padding can reach it, and a record of padding only is one header longer |
| `AnytlsFrames.RecordsFollowSteps` | src/protocol/anytls/codec.rs:321-361 | shaping stops at the first checkpoint by which the sizes before it have used up the payload, or with the last step; until then there is one record for each size, of the size that the step and the payload left make it, and what no size covers is one last record |
| `AnytlsFrames.ShapeFailsExactlyWhen` | src/protocol/anytls/codec.rs:312-361 | it fails if and only if a size before that stop asks for more waste than a frame can hold |
| `AnytlsFrames.ShapePacketPayload` | src/protocol/anytls/codec.rs:321-361 | the loop with its early exit computes the records that `AnytlsFrames.RecordsFollowSteps` counts and sizes, or fails as `AnytlsFrames.ShapeFailsExactlyWhen` says |
| `AnytlsFrames.ReadEncoded` | src/protocol/anytls/codec.rs:272-310 | an encoded frame is read back, whatever follows |
| `AnytlsFrames.DecodeEncoded` | src/protocol/anytls/codec.rs:272-310 | a stream of encoded frames is read back as those frames with nothing left |
| `AnytlsServer.StreamsDoNotInterfere` | src/protocol/anytls/inbound.rs:92-221 | over every run, what one stream causes is what it would cause alone with the session's settings |
| `AnytlsServer.ShapingIsInvisible` | src/protocol/anytls/inbound.rs:92-221 | a server fed what the client's writer put on the wire does what it would do fed the submitted frames |
| `AnytlsServer.WasteIsInert` | src/protocol/anytls/inbound.rs:214 | waste frames can be dropped anywhere without changing state or effects |
| `AnytlsServer.AcknowledgedOnce` | src/protocol/anytls/inbound.rs:120-213 | between two FINs of a stream at most one acknowledgement is sent for it |
| `AnytlsServer.AcknowledgedOnlyUnderV2` | src/protocol/anytls/inbound.rs:95-130 | an acknowledgement is sent only if the last settings announced version 2 |
| `AnytlsServer.V2IsLastAnnounced` | src/protocol/anytls/inbound.rs:95-109 | the version in force is the one last announced |
| `AnytlsServer.Serve` | src/protocol/anytls/inbound.rs:92-221 | the session's loop over any events survives exactly when the specified run does, has then done exactly what the run calls for, and has acknowledged each stream at most once more than the client ended it |
| `AnytlsServer.AcknowledgedPerFin` | src/protocol/anytls/inbound.rs:120-213 | over any run, a stream is acknowledged at most once more than the client ended it |
| `AnytlsServer.SettingsSendUpdate` | src/protocol/anytls/inbound.rs:95-119 | the dispatch sends exactly the update the negotiation calls for, or ends the session if no frame can hold it |
| `AnytlsServer.ServerSession.Handle` | src/protocol/anytls/inbound.rs:92-221 | one event keeps the session where its whole history leads, with the effects that history calls for, or ends it exactly when that run ends |
| `AnytlsServer.ServerSession.HandleFrame` | src/protocol/anytls/inbound.rs:94-219 | the in-place dispatch computes the specified state and effects, and ends the session exactly when specified |
| `AnytlsServer.ServerSession.HandlePush` | src/protocol/anytls/inbound.rs:131-209 | each outcome of target, dial and write leads to the specified streams, dials, deliveries, acknowledgements and FINs, which `AnytlsStreams.StreamCarries` and `AnytlsStreams.PushOpens` describe by the bytes pushed |
| `AnytlsStreams.StreamCarries` | src/protocol/anytls/inbound.rs:131-209 | from the frame that opens a stream for as long as it stands, the encoded target followed by the bytes delivered is the concatenation of the data pushed, for dialled targets and for the UDP magic alike, and it is dialled once or, for the magic, not at all |
| `AnytlsStreams.PushOpens` | src/protocol/anytls/inbound.rs:150-209 | what a first frame does, for a complete target: the dial, the bytes after the target, the acknowledgement, or the FIN if the dial or the write fails |
| `AnytlsStreams.PushRefused` | src/protocol/anytls/inbound.rs:150-157 | a first frame without a complete target is answered with a FIN and opens nothing |
| `AnytlsStreams.RelayStep` | src/protocol/anytls/inbound.rs:137-148 | on an open stream a frame is delivered whole and alone, and a failed write closes the stream with a FIN |
| `AnytlsStreams.MagicExactlyWhen` | src/protocol/anytls/codec.rs:456-461 | the UDP magic is that one host, in capitals or not, with port 0 |
| `AnytlsStreams.FinForgets` | src/protocol/anytls/inbound.rs:210-213 | whatever a stream was, after a FIN its next data is a new request, whose target is dialled, and acknowledged, anew |
| `AnytlsStreams.RepliesRelayed` | src/protocol/anytls/inbound.rs:92-221 | over any run the client is sent on each stream exactly what its reader task hands over, in order |
| `AnytlsStreams.HeartbeatsAnswered` | src/protocol/anytls/inbound.rs:215-218 | every heartbeat is answered with its own id, in order, and nothing else is |
| `AnytlsStreams.SurvivesExactlyWhen` | src/protocol/anytls/inbound.rs:92-221 | a session ends if and only if it is sent a SYN or data before any settings, or settings that call for an update too long for a frame |
| `AnytlsChunks.ChunkReader.ReadExact` | src/protocol/anytls/inbound.rs:593-625 | precisely the next bytes whatever the chunking, or an error that loses nothing |
| `AnytlsChunks.ChunkReader.ReadSocksTarget` | src/protocol/anytls/inbound.rs:526-561 | reads the address the pure parser finds, and leaves the reader right after it |
| `AnytlsChunks.ChunkReader.ReadUotPacketTarget` | src/protocol/anytls/inbound.rs:563-591 | the same in the packet dialect |
| `AnytlsChunks.ChunkReader.ReadLenPayload` | src/protocol/anytls/inbound.rs:515-518 | reads the payload the pure parser finds |
| `AnytlsChunks.ChunkReader.ReadPacket` | src/protocol/anytls/inbound.rs:520-524 | reads the packet the pure parser finds |
| `AnytlsChunks.ChunkReader.ForwardPackets` | src/protocol/anytls/inbound.rs:461-486 | forwards exactly the packets the byte stream holds, in order |
| `AnytlsChunks.ReadBack` | src/protocol/anytls/codec.rs:384-437 | packets encoded by the client and delivered in any chunks are forwarded unchanged and in order |
| `AnytlsChunks.PacketsRoundTrip` | src/protocol/anytls/codec.rs:395-437 | any sequence of encodable packets is decoded back |
| `AnytlsChunks.UotPacketRoundTrip` | src/protocol/anytls/codec.rs:395-437 | one packet is parsed back with its exact length, whatever follows |
| `AnytlsChunks.LenPayloadRoundTrip` | src/protocol/anytls/codec.rs:384-393 | the same of a length-prefixed payload |
| `AnytlsChunks.RequestAddrAgrees` | src/protocol/anytls/inbound.rs:526-561 | the stream reader accepts the SOCKS address grammar, and also the tag of domain names in the packet dialect |
| `AnytlsSettings.SettingsCarryDigest` | src/protocol/anytls/codec.rs:471-485 | the server reads back the digest and the version the client wrote |
| `AnytlsSettings.FirstSettingCounts` | src/protocol/anytls/codec.rs:479-485 | a setting has the value of the first line with its name, and none if there is no such line |
| `AnytlsSettings.ParseU8Exactly` | src/protocol/anytls/codec.rs:475-477 | a version is read exactly from digits, after at most one plus sign, that make at most 255 |
| `AnytlsSettings.AnnouncesExactlyWhen` | src/protocol/anytls/inbound.rs:97-99 | version 2 is announced if and only if the first "v" is a number from 2 to 255 |
| `AnytlsSettings.JoinOfLines` | src/protocol/anytls/codec.rs:487-507 | splitting a text into lines and joining them gives it back if and only if it has no CR LF and does not end in LF |
| `AnytlsSettings.LinesOfJoin` | src/protocol/anytls/codec.rs:487-507 | joining clean lines and splitting the text gives them back |
| `PaddingNegotiation.NegotiationSettles` | src/protocol/anytls/outbound.rs:620-637 | whatever digest the client starts from, and whether the server's scheme is configured or built in, after any number of connections it has the server's digest and is sent no further update |
| `PaddingNegotiation.ClientRebuildsText` | src/protocol/anytls/outbound.rs:620-637 | the client rebuilds the text it was sent if and only if splitting and joining loses nothing of it |
| `PaddingNegotiation.UnfaithfulNeverSettles` | src/protocol/anytls/outbound.rs:620-637 | otherwise, after any number of connections, the client still lacks the server's digest and is sent the update again, unless digests collide |
| `PaddingNegotiation.RefusedSchemeNeverAdopted` | src/protocol/anytls/outbound.rs:620-637 | a scheme the padding factory refuses is never adopted and is sent on every connection, unless the client has the plain digest of its text |
| `PaddingNegotiation.CleanSchemeIsFaithful` | src/protocol/anytls/codec.rs:487-507 | a scheme given as lines without line breaks, the last not empty, is rebuilt |
| `AnytlsFallback.ServeFallback` | src/protocol/anytls/inbound.rs:282-316 | after a rejected hello, whatever the sizes of the reads, the bytes read are the client's stream from its first byte, and as long as something is left every read gets some of it |
| `AnytlsFallback.PrefixedIo.PollRead` | src/protocol/anytls/inbound.rs:297-316 | one read takes bytes off the front of prefix and connection, no more than there is room for |
| `AnytlsFallback.FindUser` | src/protocol/anytls/codec.rs:247-270 | no user is found exactly if no password hash matches, and otherwise the name is that of the first that does |
| `AnytlsFallback.HelloRoundTrip` | src/protocol/anytls/codec.rs:221-270 | a known client is recognised whatever its padding, which is skipped to its last byte and no further |
| `AnytlsFallback.HelloExactlyWhen` | src/protocol/anytls/codec.rs:247-270 | only a whole hello of a known client authenticates, and a client is rejected if and only if its first 32 bytes are no client's hash, with nothing else read |
| `AnytlsFallback.HelloCutShort` | src/protocol/anytls/codec.rs:247-270 | every strict prefix of a known client's hello is an error |
| `UdpAssociation.AssociationIsSafe` | src/protocol/socks5/inbound.rs:206-266 | over every run, the association belongs to the sender of the first well-formed packet from where the client is expected, all traffic is with that address, and before that there is none |
| `UdpAssociation.ClaimIsFinal` | src/protocol/socks5/inbound.rs:206-266 | once claimed it serves the same address for good |
| `UdpAssociation.NothingLost` | src/protocol/socks5/inbound.rs:206-253 | every well-formed packet of the client is forwarded, decoded, in order, until the association ends, by a failed send among others, and nothing else is |
| `UdpAssociation.HistoryExplainsRun` | src/protocol/socks5/inbound.rs:206-266 | over every run, told from what was received: whose the association is, when it was last used and whether it has ended; and its traffic is, one for one and in order, a client packet forwarded decoded or a remote packet encoded for the client, for each that arrived while it lasted and was sent |
| `UdpAssociation.ExpectedExactlyWhen` | src/protocol/socks5/inbound.rs:255-266 | where the client is expected: the peer's address, an IPv4-mapped one counting as IPv4, and the requested port if there is one |
| `UdpAssociation.Serve` | src/protocol/socks5/inbound.rs:206-253 | the loop over anything it wakes up for ends with the address of the first valid packet from where the client is expected, has had traffic with that address only, has forwarded all its well-formed packets, decoded and in order, and has sent it every encodable packet of the remotes, encoded and in order, until the association ended |
| `Addresses.EncodeParse` | src/protocol/socks5/codec.rs:15-72 | in each dialect an encoded address is parsed back with its exact length, whatever follows |
| `Addresses.ParseEncode` | src/protocol/anytls/codec.rs:514-571 | whatever parses encodes to the bytes that were used |
| `Addresses.AddrStable` | src/protocol/anytls/codec.rs:542-571 | a verdict on an address does not change when more bytes arrive |
| `Socks5Codec.SliceDecoderAgrees` | src/protocol/socks5/codec.rs:43-72 | the slice decoder accepts exactly the complete well-formed addresses, with their length |
| `Socks5Codec.StreamReaderAgrees` | src/protocol/socks5/inbound.rs:152-177 | the stream reader accepts the same and leaves what follows |
| `Socks5Codec.RequestRoundTrip` | src/protocol/socks5/inbound.rs:141-183 | a request is read back, and nothing after it is touched |
| `Socks5Codec.RequestReencodes` | src/protocol/socks5/inbound.rs:141-183 | nothing else is read as a request: what is read as one was written so |
| `Socks5Codec.UdpPacketBijection` | src/protocol/socks5/codec.rs:74-94 | bytes encode a target and a payload if and only if they decode to them |

## Left out

- AnytlsLimits.ConnectionBound: the limit itself does not hold; AnytlsLimits.LimitHoldsExactlyWhen says exactly when it does.
- AnytlsAccounting.StreamAccounting: counts overwritten streams too, because ids repeat; AnytlsAccounting.CounterExactlyWhen says exactly when there are none.
- AnytlsClosing.ClosedHandsOutNothing: starts where no reservation has passed its check of the closed flag, because AnytlsClosing.CloseMayOvertakeReservation shows that one that has still succeeds.
- TuicStream.DeferredEqualsLive: excludes empty streams that ended before authentication, where TuicStream.EmptyFinDiffers shows that the two always differ.
- PaddingNegotiation.NegotiationSettles: asks for a scheme text the client rebuilds, because PaddingNegotiation.UnfaithfulNeverSettles shows that others do not settle; that the built-in digest belongs to the built-in scheme is an assumption about two constants.
- PaddingNegotiation.UnfaithfulNeverSettles: excludes digest collisions, because two texts with one digest cannot be told apart.
- TuicEndToEnd.PacketsArrive: takes the datagrams in order and without loss, because a lost or late fragment loses its packet; any order, repeats and foreign traffic are in TuicAssembler.FragmentRoundTrip, for one packet.
- TuicAssembler.FragmentRoundTrip: fragments of the packet arrive less than the idle timeout apart, because the assembler drops a group that waits longer.
- TuicInbound.TuicApp.HandleStreamData: relies on QUIC delivering nothing of a stream after its FIN.
- TuicInbound.TuicApp.HandlePacket: whether a request is dropped for lack of room in the relay's channel is left open.
- TuicServerSend.WriteQueue.ProcessWrites: the datagram limit does not change during one drain.
- Cryptography: TLS, hashes, the TUIC exporter and token comparison are parameters.
- The bit layout of TUIC headers and AnyTLS frames follows the published TUIC v5 and AnyTLS layouts, because the crates that marshal them are not part of this model.
- Parsing of padding plans and the random choice of record sizes; the shaping theorems hold for any steps.
- Socket I/O, task scheduling, cancellation, and waits for room in a channel.
- TuicUdp.LiveUdp: leaves out the removal of TUIC associations idle for too long, which compares a time with a constant; like a DISSOCIATE it ends the association, which may then be bound to another mode.
- Heartbeat timers.
- The forgetting of a TUIC stream when its relay ends: the connection's invariant speaks of streams the relay has not given up.
- The TUIC client's TCP streams: they pass bytes between a channel and one QUIC stream, as the server's queue does.
- The AnyTLS client's reader beyond padding updates, its UDP streams, and the text of alerts.
- Routing, the direct outbound, configuration parsing, certificates and the content of the HTTP fallback.
