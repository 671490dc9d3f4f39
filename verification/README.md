# Verification of the vehicle communication stack

This project models the concurrent and distributed core of the communication stack and proves what
it guarantees over whole runs. `dafny verify dfyconfig.toml` checks everything.

Each object that the C++ updates in place is a class whose methods are proved against functions on
values; each protocol is a transition system over those functions, and its theorems hold in every
reachable state, for any number of threads, readers, vehicles or messages. A run is a sequence of
labelled steps (`Runs.dfy`); fields called history in a comment are never looked at by a guard.

| files | what they model |
|---|---|
| `SharedRing`, `RingProtocol`, `RingTheorems` | the shared-memory broadcast ring: the region and its semaphores; all interleavings of `write_slot` and `read_slot`; refinement of an unbounded log, token conservation, freedom from deadlock, delivery under every schedule |
| `Sptp`, `SptpRuns` | the four-timestamp clock synchronisation; one master, one slave, a network that loses, delays, reorders and duplicates |
| `Addresses`, `Broker`, `BrokerRuns`, `BrokerTrace` | the interest broker: its list as a replay of the event log, and the language of what it sends |
| `Bindings`, `BindingRuns` | the producer's table of leases and worker threads, as a last-writer map with leases |
| `StopBound` | vehicles, broker and producer together: how long a unit goes on being served |
| `NetworkInterface`, `Gateway` | buffer pools, and the routing between ring and wire, one call at a time |
| `BufferRuns`, `BufferContents`, `BufferRequests` | any number of threads inside those calls, one pool or queue access at a time: no leak, no double free, no shared buffer, and each frame handled once as specified |
| `Forwarding`, `GatewayObservers` | many vehicles on one segment: what is on the wire and in the rings, and how often a gateway's own observers are given a message |
| `MonotonicStamp`, `ObserverQueue`, `PeriodicThread` | the compare-and-exchange time stamp, the observer queue, the deadline scheduler |
| `Runs`, `Sequences`, `Common` | runs and their induction rule; sums, filters and orders over sequences; shared names |

Assumptions, beside those written as guards of the steps:

- Ring: every reader attaches before the first write, and none closes. README.md line 112 of the
  repository promises a start-up barrier; no barrier is in the code. The 64-bit sequence number does
  not wrap: a writer at 2^64 - 1 stops, which the progress results mention.
- Clock synchronisation: the master's clock is the reference; between jumps the slave's clock drifts
  by at most rho parts in a thousand million of the time passed, for any rho under which it never runs
  backwards. Sending a request (two clock readings and two stores) or handling a packet is one step.
  The doubles of the delay filter are exact at these magnitudes.
- Broker and producer: one clock for all; the network delays a message by at most a given time.
- Forwarding: vehicles have distinct, non-zero wire addresses, and the wire gives a receiver a frame
  at most once. A port has at most one observer; with two, a buffer would be freed twice.
- Buffers: the two pools are disjoint arrays, and a thread is a stack of calls; the clock protocol's
  answers and the observers' reactions are sends that a call may make at any such point.
- Times, counters and the 32-bit request number are unbounded integers, but for the end of a lease,
  which is computed in 64-bit words (`Bindings.ExpiryFor`): a signed overflow, undefined in C++, wraps.
  `Bindings.LeaseFits` says when that is the lease intended; the results about leases hold in any case.

Where code and comments disagree the model follows the code. The comment at
`src/channel/protocol.h:330` says the ring does not loop back to the writer; the gateway in fact
reads its own injected frames (`SharedRing.WhoReads`). Only the source address keeps them off the
wire (`Forwarding.InjectedFramesStayOffTheWire`), and a gateway with observers, such as the road-side
unit's, gives them a message from the wire twice: once for the wire's buffer, and once more when it
has read back what it injected (`GatewayObservers.WireMessagesAreToldTwice`).

## Model

| member | source | states |
|---|---|---|
| `SharedRing.WhoReads` | src/network/engine/shared_memory_engine.cpp:169-187 | a component reads every frame but its own; the gateway reads every frame, its own included |
| `SharedRing.Region.constructor` | src/network/engine/shared_memory_engine.cpp:75-93 | a fresh region: nothing written or pending, mutex free, every slot free |
| `SharedRing.Region.WriteSlotBody` | src/network/engine/shared_memory_engine.cpp:318-324 | the writer's critical section takes the next number and fills exactly that number's slot with the frame, cut to the slot's size |
| `SharedRing.Region.PostAllPending` | src/network/engine/shared_memory_engine.cpp:326-328 | the post loop raises each reader's pending semaphore by one |
| `SharedRing.Region.ReadSlotBody` | src/network/engine/shared_memory_engine.cpp:343-357 | the reader's critical section advances that reader only, copies the slot at its old number if it is to read it, and says whether it owes a post |
| `SharedRing.Region.LeastReadSeqNotMe` | src/network/engine/shared_memory_engine.cpp:276-284 | the scan returns the least position of the other readers, 2^64 - 1 if there is none |
| `RingProtocol.MinAdvance` | src/network/engine/shared_memory_engine.cpp:343-357 | an advancing reader is told to post exactly when its advance moves the minimum of all positions, by one |
| `RingProtocol.ReachableInv` | src/network/engine/shared_memory_engine.cpp:313-365 | the invariant of mutex, semaphores, slots, log and deliveries holds in every reachable state |
| `RingTheorems.RingRefinesLog` | src/network/engine/shared_memory_engine.cpp:313-365 | every step of every interleaving appends one entry to an unbounded log, reads in place the entry at one reader's position, or leaves the log unchanged |
| `RingTheorems.DeliversLogPrefix` | src/network/engine/shared_memory_engine.cpp:334-365 | each reader has been given, in log order, without loss, repetition or overwriting, the frames promised to it of the prefix it has passed |
| `RingTheorems.UnreadIsIntact` | src/network/engine/shared_memory_engine.cpp:315-324 | every entry that some reader has yet to read is still in its slot |
| `RingTheorems.WriterReusesOnlyReadSlots` | src/network/engine/shared_memory_engine.cpp:315-319 | a writer about to fill a slot finds its old content passed by every reader |
| `RingTheorems.TokensConserved` | src/network/engine/shared_memory_engine.cpp:315-361 | EMPTY, tokens held, posts owed and entries not yet passed by all add up to the slot count; entries passed by all have returned one token each |
| `RingTheorems.PendingCountsUnread` | src/network/engine/shared_memory_engine.cpp:326-343 | a reader's pending semaphore and its held token count its unread entries, less one until the post loop reaches it; no reader passes the last write |
| `RingTheorems.MutualExclusion` | src/network/engine/shared_memory_engine.cpp:316-359 | at most one thread is inside a critical section |
| `RingTheorems.NeverDeadlocks` | src/network/engine/shared_memory_engine.cpp:313-365 | any reachable state with a call under way or an entry unread has a step other than a new call |
| `RingTheorems.WorkDecreases` | src/network/engine/shared_memory_engine.cpp:313-365 | every step but a new call strictly lowers a measure, so no schedule runs for ever without one |
| `RingTheorems.LogHoldsWhatWasSent` | src/network/engine/shared_memory_engine.cpp:169-187 | each log entry was written by one call, and holds that call's frame, cut to 1514 bytes, its writer's name and who may read it |
| `RingTheorems.DeliversWhatWasSent` | src/network/engine/shared_memory_engine.cpp:334-365 | each reader has been handed, in order, the frames that the calls it has passed sent to it |
| `RingTheorems.EveryScheduleDrains` | src/network/engine/shared_memory_engine.cpp:313-365 | with no fairness assumed: where the threads can no longer step, the calls the run made are the log's entries, one each, and every reader has been handed what all of them sent to it |
| `Sptp.SptpSlave.SendSyncRequest` | src/channel/sptp_protocol.h:239-255 | a request takes the next number and makes its send time the pending one |
| `Sptp.SptpSlave.OnReceive` | src/channel/sptp_protocol.h:138-196 | the slave's new state and the jump it asks for, on every branch: other kind, short, nothing pending, stale number, outlier, dead band, correction |
| `Sptp.SystemClock.AdjustClockJump` | src/channel/sptp_protocol.h:227-237 | the clock moves by the jump asked for unless that is before the epoch, with truncating division on either sign |
| `Sptp.OffsetError` | src/channel/sptp_protocol.h:163-164 | the measured offset misses the true one by at most half of the delay asymmetry and the drift during the exchange, rounded up |
| `Sptp.DelayError` | src/channel/sptp_protocol.h:163-164 | the measured delay misses the mean of the two delays by at most half of the drift during the exchange, rounded up, however far apart the clocks are |
| `Sptp.HalfDropsTheHalf` | src/channel/sptp_protocol.h:163-164 | the division by two is towards zero on either side |
| `Sptp.SmoothStaysInRange` | src/channel/sptp_protocol.h:166-172 | the delay filter never leaves the range of its first value and its samples |
| `Sptp.SmoothSettles` | src/channel/sptp_protocol.h:166-172 | under a constant sample d the filter reaches the nearest end of [d - 7, d], stays, and never crosses d |
| `SptpRuns.JumpTakesEffect` | src/channel/sptp_protocol.h:227-237 | the kernel never refuses a jump that a genuine exchange asks for, drift included |
| `SptpRuns.NoExchangeStraddlesAJump` | src/channel/sptp_protocol.h:149-195 | both slave time stamps of an accepted exchange come from one clock epoch and the latest request |
| `SptpRuns.EachRequestAcceptedOnce` | src/channel/sptp_protocol.h:149-195 | whatever is duplicated or reordered, a request is accepted at most once |
| `SptpRuns.EachRequestMeasuredOnce` | src/channel/sptp_protocol.h:175-179 | nor is it evaluated again after an outlier |
| `SptpRuns.ResidualBound` | src/channel/sptp_protocol.h:163-189 | what an accepted exchange leaves of the slave's error, adjusted or inside the dead band: half of the asymmetry and of what a drifting clock slips in the round trip, and the dead band if not adjusted |
| `SptpRuns.StaysSynchronized` | src/channel/sptp_protocol.h:174-195 | from the first accepted exchange on a drifting slave's error is within the dead band, half of the spread and a round trip's drift, and the drift since the last acceptance |
| `SptpRuns.SynchronizedForEver` | src/channel/sptp_protocol.h:174-195 | without drift, within the dead band plus half the spread for ever |
| `SptpRuns.DelayInRange` | src/channel/sptp_protocol.h:166-172 | the delay estimate stays in range in every run |
| `SptpRuns.DelayTracksNetwork` | src/channel/sptp_protocol.h:164-172 | every sample is the delay of a genuine exchange, so the estimate stays in the range of the network's delays and its first value, but for half of a round trip's drift |
| `SptpRuns.LatestReplyIsAccepted` | src/channel/sptp_protocol.h:149-195 | the reply to the latest request is measured, and unless the clocks are about a second apart accepted, which marks the slave synchronized |
| `SptpRuns.LatestReplyIsSampled` | src/channel/sptp_protocol.h:164-172 | and its delay enters the filter where it outweighs the drift |
| `SptpRuns.StaleReplyIsIgnored` | src/channel/sptp_protocol.h:149-158 | any other reply changes nothing |
| `SptpRuns.RequestsAreAnswered` | src/channel/sptp_protocol.h:121-130 | a request leaves its number pending, and each one the master gets is answered with that number and the master's two times |
| `Addresses.ComputeMacKey` | src/communication/smart_data/smart_helpers.h:13-18 | the key loop folds the six bytes, within 48 bits |
| `Addresses.KeyInBytes` | src/communication/smart_data/smart_helpers.h:13-18 | the key's bytes are the address's, the first one highest |
| `Addresses.MacKeyInjective` | src/communication/smart_data/smart_helpers.h:13-18 | two vehicles never share a key |
| `Broker.InterestTracker.OnPresence` | src/communication/smart_data/interest_tracker.h:49-52 | a sighting sets that vehicle's time and nothing else |
| `Broker.InterestTracker.Update` | src/communication/smart_data/interest_tracker.h:55-84 | the broker's whole state after a message: short, response, disinterest, refreshed or new interest |
| `Broker.InterestTracker.Forget` | src/communication/smart_data/interest_tracker.h:108-114 | the loop over dead vehicles removes exactly their presence and their entries, keeping the order of the rest |
| `Broker.InterestTracker.BrokerTick` | src/communication/smart_data/interest_tracker.h:97-143 | the whole state after a tick and the messages sent, stops before repeats |
| `Broker.ActiveIsLeast` | src/communication/smart_data/interest_tracker.h:116-121 | a unit is active iff some entry asks for it, at the least period asked |
| `BrokerRuns.ListIsReplay` | src/communication/smart_data/interest_tracker.h:49-114 | an entry is listed, at its period, iff the last of the interests, disinterests and expiries that concern it is an interest at that period |
| `BrokerRuns.InterestIsListed` | src/communication/smart_data/interest_tracker.h:55-84 | a message of kind interest and at least 14 bytes, no disinterest, is listed at its period right afterwards and its vehicle seen; a shorter one or a response changes nothing |
| `BrokerRuns.ListedAreUniqueAndPresent` | src/communication/smart_data/interest_tracker.h:69-79 | entries are unique and their vehicles are in the presence map |
| `BrokerRuns.TickKeepsExactlyTheSeen` | src/communication/smart_data/interest_tracker.h:104-114 | a tick leaves exactly the entries of vehicles seen within the lease |
| `BrokerTrace.TraceIsInLanguage` | src/communication/smart_data/interest_tracker.h:116-143 | what is sent about a unit is always in (repeat+ stop)* repeat* |
| `BrokerTrace.CounterCountsStops` | src/communication/smart_data/interest_tracker.h:133-140 | the disinterest counter is the number of stops sent |
| `BrokerTrace.StopDecision` | src/communication/smart_data/interest_tracker.h:123-130 | a tick stops a unit iff the last word on it was a repeat and no entry is left |
| `BrokerTrace.StopsComeFirst` | src/communication/smart_data/interest_tracker.h:133-142 | a tick sends its stops before its repeats |
| `BrokerTrace.RepeatDecision` | src/communication/smart_data/interest_tracker.h:116-127 | a tick repeats a unit iff an entry is left, at the least period of those left |
| `Bindings.ShortestIsLeast` | src/communication/smart_data/binding_cache.h:100-105 | with periods of at least one, 0 means nobody is bound and anything else is the least period |
| `Bindings.BindingCache.ResyncThreads` | src/communication/smart_data/binding_cache.h:109-128 | whatever the threads were, afterwards there is one for exactly the units bound, at the shortest period |
| `Bindings.ResyncedAgrees` | src/communication/smart_data/binding_cache.h:109-128 | the map that the two loops leave agrees with the bindings |
| `Bindings.BindingCache.OnInterest` | src/communication/smart_data/binding_cache.h:42-53 | that consumer is bound at the period it asked for, or 1 for 0, to end when the machine's words say; all others stay bound; threads agree, and none is slower than a binding of its unit asks for |
| `Bindings.BindingCache.OnDisinterest` | src/communication/smart_data/binding_cache.h:57-64 | exactly that consumer's binding goes, threads in agreement |
| `Bindings.BindingCache.Clear` | src/communication/smart_data/binding_cache.h:68-72 | no binding and no thread is left |
| `Bindings.BindingCache.ReapPass` | src/communication/smart_data/binding_cache.h:148-154 | exactly the bindings whose lease has ended go, threads in agreement |
| `Bindings.Producer.Update` | src/communication/smart_data/smart_data.h:89-108 | the producer's bindings, threads and last quadrant after any message |
| `Bindings.LeaseFits` | src/communication/smart_data/binding_cache.h:130-134 | the machine's end of a lease is the intended one iff that fits a signed 64-bit word, and never later |
| `Bindings.LostLeases` | src/communication/smart_data/binding_cache.h:130-134 | the longest period at time 0 that gets its lease; the next is over before it starts; 2^60 and 2^62 wrap to an empty and to the shortest lease |
| `BindingRuns.TableIsReplay` | src/communication/smart_data/binding_cache.h:42-72 | a binding is in the table iff an interest made it, at the period asked for or 1, and nothing since replaced, released, cleared or outlived it |
| `BindingRuns.OthersUnaffected` | src/communication/smart_data/binding_cache.h:55-64 | one consumer's interest or disinterest leaves all others' bindings alone |
| `BindingRuns.LeaseIsExact` | src/communication/smart_data/binding_cache.h:130-155 | a binding left alone survives every pass up to the end of its lease and none after; that end is the one asked for iff it fits a signed word |
| `BindingRuns.ProducerIsReplay` | src/communication/smart_data/smart_data.h:93-108 | a producer has a binding iff an interest about its unit made it and since then none has come from another quadrant, none from that consumer, and no pass was later than its end |
| `BindingRuns.ServedAtLeastPeriod` | src/communication/smart_data/binding_cache.h:109-128 | the unit has a thread iff such a binding is held, and it runs at the least period asked for by those held |
| `BindingRuns.OthersAreStillServed` | src/communication/smart_data/smart_data.h:96-106 | a message from the producer's quadrant costs no other consumer its binding |
| `BindingRuns.SurvivorsAreFromThisQuadrant` | src/communication/smart_data/smart_data.h:96-106 | every binding was asked for since the producer last heard the quadrant change |
| `StopBound.TickRepeatsInTime` | src/communication/smart_data/interest_tracker.h:97-142 | the broker repeats a unit only within a lease of the last sighting of an interested vehicle |
| `StopBound.StopsInTime` | src/communication/smart_data/smart_data.h:93-108 | with any stop messages lost: once a reaper pass has run later than 4 s, the network delay and one binding lease after the last sighting, there is no binding and no thread for the unit until the next sighting |
| `StopBound.LatePassStops` | src/communication/smart_data/binding_cache.h:148-154 | a pass that late leaves no thread for the unit |
| `StopBound.NoLateBinding` | src/communication/smart_data/interest_tracker.h:97-142 | from a presence lease and a delay after the last sighting no message can bind the unit again |
| `StopBound.AnnouncementIsHeeded` | src/communication/smart_data/interest_tracker.h:145-153 | a repeat that reaches the producer binds the unit at its period for the broker, and its thread runs no slower; a stop ends the broker's binding |
| `NetworkInterface.Nic.AllocBuf` | src/network/nic.h:189-195 | a buffer that was free, and no other, leaves the free list; none does if the list is empty |
| `NetworkInterface.Nic.Free` | src/network/nic.h:151-156 | exactly that buffer returns to the free list |
| `NetworkInterface.Nic.Send` | src/network/nic.h:136-149 | the engine gets the frame, stamped, a change of quadrant is noticed, sent frames are counted, and the buffer returns to the free list whatever the engine answers |
| `NetworkInterface.Nic.DetectQuadrantChange` | src/network/nic.h:197-202 | a change is reported only between two known quadrants; an unknown one is not remembered |
| `Gateway.Protocol.FreeBuffer` | src/channel/protocol.h:344-355 | a buffer returns to the pool it came from |
| `Gateway.Protocol.Receive` | src/channel/protocol.h:221-248 | the message in a buffer, which is freed on both paths |
| `Gateway.Protocol.Notify` | src/communication/communicator.h:91-111 | an observed buffer leaves the caller's hands, into the queue or unmarshalled and freed, an empty message discarded; an unobserved one stays |
| `Gateway.Protocol.AppReceive` | src/communication/communicator.h:58-72 | the oldest queued buffer is taken, read and freed |
| `Gateway.Protocol.Update` | src/channel/protocol.h:271-340 | what each path of the routing sends, delivers and queues; the buffer leaves the caller's hands and no other buffer changes hands |
| `Gateway.Protocol.OnFrame` | src/network/nic.h:67-98 | in an undisturbed call, on every path from the receive handler down, what was taken from a pool is given back or queued, and what is sent, delivered and queued |
| `Gateway.PassesUp` | src/network/engine/raw_socket_engine.cpp:145-160 | the handler passes up whole headers of our protocol, and from the wire only frames of another source and of our quadrant, unless one of the two is unknown; it passes up the frame itself |
| `Gateway.ObserversGetWhatWasSent` | src/channel/protocol.h:221-248 | the observers of the destination port get the sender's data, stamp, quadrant and port under its address, cut to 1400 bytes; an empty message they do not get |
| `Gateway.ReadOutOfBuffer` | src/channel/protocol.h:228-243 | what is read out of a buffer is its frame's fields and as much data as buffer and receiver have room for |
| `Gateway.Protocol.Send` | src/channel/protocol.h:204-218 | the frame sent and by which interface, with the caller's time stamp unless it is 0, and on the ring whatever quadrant the buffer held; the engine's answer, or -1; no buffer is kept |
| `BufferRuns.EachBufferIsInOnePlace` | src/network/nic.h:67-195 | in every interleaving of every path, each buffer of both pools is once on its free list, once queued, or had by one call |
| `BufferRuns.EachBufferHasOneHolder` | src/channel/protocol.h:221-377 | a buffer that a call has is neither free nor queued, and no other call of any thread has it |
| `BufferRuns.FreesAreSound` | src/network/nic.h:151-156 | wherever a path frees a buffer, an index is pushed, it is in that pool's range, not on its free list, and the buffer is not queued |
| `BufferRuns.EachTakingIsReturnedOnce` | src/network/nic.h:151-195 | each taking of a buffer is matched by one return, but for the last while it is still out |
| `BufferRuns.AtRestThePoolsAreFull` | src/network/nic.h:61-63 | with no call under way and nothing queued, each free list is a permutation of its pool |
| `BufferRuns.OnlyTheHolderWrites` | src/network/nic.h:67-98 | no step of another call changes what is in a buffer a call has |
| `BufferRuns.QueueKeepsFrames` | src/communication/communicator.h:58-72 | the application reads from a queued buffer what it held when it was queued |
| `BufferContents.CallsKnowTheirBuffers` | src/channel/protocol.h:271-340 | in every interleaving a call finds in its buffer what it left there |
| `BufferContents.SentAsSpecified` | src/channel/protocol.h:282-324 | every frame handed to an engine is a request's, or exactly what is specified for a frame received on the other side |
| `BufferRequests.EachRequestIsSentOnce` | src/channel/protocol.h:360-377 | in every interleaving a request to send is handed to an engine once for each time it was made, but for those refused, as too long or for want of a buffer, and those on the way |
| `BufferRequests.ChangeAsks` | src/network/nic.h:197-202 | handing a frame to the wire asks for a clock request just where a known quadrant follows another known one |
| `BufferContents.DeliveredAsSpecified` | src/communication/communicator.h:58-111 | every message handed to observers, or read by the application, is the one specified for a frame received |
| `BufferContents.HandedAsSpecified` | src/channel/protocol.h:305-318 | every frame handed to the clock protocol is a clock packet received from the wire |
| `BufferContents.EachArrivalIsHandledOnce` | src/channel/protocol.h:271-340 | a frame received is forwarded, delivered, handed to the clock protocol and read by the application at most as often as specified, and exactly so when no call is about it any more, but for a forwarding that found the other pool empty and for what still waits in the queue |
| `Forwarding.OnTheWireAtMostOnce` | src/channel/protocol.h:282-340 | no message is on the wire twice, in any run of any number of vehicles |
| `Forwarding.InEachRingAtMostOnce` | src/channel/protocol.h:305-324 | no message is in one ring twice |
| `Forwarding.ReadAtMostOnce` | src/network/engine/shared_memory_engine.cpp:347-349 | no component is given a message twice |
| `Forwarding.EveryOtherComponentReads` | src/network/engine/shared_memory_engine.cpp:347-349 | every component of a vehicle but the writer reads each message of its ring |
| `Forwarding.ControlStaysOffTheRings` | src/channel/protocol.h:305-318 | clock packets never reach a ring |
| `Forwarding.OnlyLocalIsForwarded` | src/channel/protocol.h:283-299 | the gateway's address test picks exactly its own components' broadcasts |
| `Forwarding.InjectedFramesStayOffTheWire` | src/channel/protocol.h:283-299 | the gateway reads back what it injected and does not forward it |
| `Forwarding.InjectedFromThisQuadrant` | src/network/engine/raw_socket_engine.cpp:145-160 | what a gateway injected came from another vehicle, of its own quadrant then, unless one was unknown |
| `Forwarding.ForwardedCarriesItsQuadrant` | src/network/nic.h:136-149 | a forwarded frame carries the quadrant its vehicle was in when it was forwarded |
| `Forwarding.MessageArrives` | src/channel/protocol.h:320-338 | of a message that reached another vehicle's ring, the observers there get the sender's data, stamp and port under the sending vehicle's address |
| `Forwarding.BroadcastArrivesOnce` | src/channel/protocol.h:282-324 | a broadcast is lost only to an empty pool, the wire, or a frame's own source, quadrant or kind: otherwise it is on the wire, and in the ring of each vehicle that heard it, unchanged but for the source address and the quadrant, and read by all its components |
| `GatewayObservers.WireMessagesAreToldTwice` | src/channel/protocol.h:320-338 | a gateway's observers get a message heard from the wire twice iff it was injected, read back and found a buffer there, else once; it was injected iff the ring's pool had room |
| `GatewayObservers.LocalMessagesAreToldOnce` | src/channel/protocol.h:336-339 | they get a message of the vehicle's own components exactly once |
| `GatewayObservers.ToldAtMostTwice` | src/channel/protocol.h:271-340 | no message reaches them more than twice, in any run |
| `MonotonicStamp.Stamper.MonotonicStamp` | src/core/clock.h:24-38 | an undisturbed call returns and stores the greater of its reading and one more than the last stamp, through any number of spurious failures |
| `MonotonicStamp.StampsAreSequential` | src/core/clock.h:24-38 | linearizable: in the order of the stores, stamps are those of calls made one after the other |
| `MonotonicStamp.StampsIncrease` | src/core/clock.h:24-38 | stamps strictly increase in the order of the stores |
| `MonotonicStamp.LaterCallsGetLaterStamps` | src/core/clock.h:24-38 | a stamp stored later in a run is greater than every stamp of the state it started from |
| `MonotonicStamp.StampsAreBounded` | src/core/clock.h:24-38 | each stamp is at least 1 and its reading, and at most the highest reading plus the stamps issued |
| `MonotonicStamp.SendStamped` | src/communication/communicator.h:48-53 | the frame an application sends carries the stamp just issued, greater than all before |
| `MonotonicStamp.ApplicationStampIsKept` | src/channel/protocol.h:373-374 | the value 0 that means "stamp now" never replaces an application's stamp |
| `ObserverQueue.Observer.Updated` | src/core/observers/concurrent_observer.h:42-53 | a call made alone takes the oldest element, or nothing from an empty queue |
| `ObserverQueue.LengthIsAccounted` | src/core/observers/concurrent_observer.h:33-53 | the queue's length is the semaphore, the consumers past the wait and at most one push not yet posted |
| `ObserverQueue.MutualExclusion` | src/core/observers/concurrent_observer.h:36-52 | at most one thread of both calls is inside the locked part |
| `ObserverQueue.EmptyBranchIsUnreachable` | src/core/observers/concurrent_observer.h:48-49 | after a successful wait the queue is never found empty |
| `ObserverQueue.FirstInFirstOut` | src/core/observers/concurrent_observer.h:33-53 | what is taken is a prefix of what was put, and the queue is the rest, with `front` and `pop` as two steps that only the lock keeps together |
| `ObserverQueue.ConsumersAreServed` | src/core/observers/concurrent_observer.h:33-53 | while an element is unclaimed, a waiting consumer passes or a producer can post |
| `PeriodicThread.Thread.Loop` | src/core/periodic_thread.h:39-53 | the loop waits for exactly the deadlines of the recurrence, whatever the jobs and periods do |
| `PeriodicThread.DeadlinesNeverBunch` | src/core/periodic_thread.h:43-46 | deadlines are at least the periods in force apart |
| `PeriodicThread.NoOverrunNoDrift` | src/core/periodic_thread.h:43-46 | the k-th deadline is exactly the start plus the periods used iff no job before it overran |
| `PeriodicThread.OverrunStartsAnew` | src/core/periodic_thread.h:43-46 | a round that ends by its next deadline keeps to it, one that overruns it starts anew a period after it ended |
| `PeriodicThread.RateIsBounded` | src/core/periodic_thread.h:39-53 | by time t at most floor((t - t0) / P) + 1 jobs have started |

## Left out

- System calls, sockets, signals, thread creation and scheduling priorities: semaphores and locks are guarded steps, the network a set of messages.
- `engine_init` after the first write, and `engine_close`: a late reader moves its position without touching the semaphores, and a closed one stops the ring.
- C++ memory orders: each atomic operation is one step.
- The silence watchdog and retry loop of the clock protocol: requests may be sent at any time, and `SptpRuns.StaysSynchronized` takes the longest silence as given.
- Two clock-protocol requests overlapping in two threads, which can pair one request's send time with another's number.
- `Gateway.Protocol.Update`: one undisturbed call, without the clock request that a quadrant change triggers inside a send; in `BufferRuns` that request is a nested call.
- Counting received frames; the counts of sent ones, which the source updates without a lock, are those of one thread.
- The consumer side of `SmartData` (responses, value mode, reactive refresh) and its printing and callbacks.
- `PeriodicThread.Thread.Loop`: does not model the slices of the sleep or `stop`; a round is given by when its job started and what the clock read after it.
- A `Periodic_Thread` in the binding cache is its period; starting and joining it is not modelled.
- In `Forwarding`, a gateway process sending to an internal address, which nothing in the stack does.
- Dispatch of `notify` to several observers of one port, and attaching or detaching while it runs.
- The GPS module and the quadrant walk: a quadrant is an input.
- Byte layout of headers; a frame is its fields and its data.
