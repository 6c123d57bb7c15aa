# Drip: a verified model of the tunnel's core

Drip is a self-hosted tunnel. This project models the parts of it that carry state and proves what they
promise, for all inputs and over all runs.

- **Wire.** `FrameWriter*` is the two-queue batching writer as a state machine in which producers, the write
  loop, `Flush` and `Close` interleave step by step, and as an object whose methods are runs of it;
  `FrameWriterClosing` is about `Close`, `FrameWriterQueues` about how long the queues get, `FrameWriterWire` about
  the bytes a run sends and what a reader gets.
  `FrameCodec` is the length-prefixed frame format, `WebSocketConn` the byte stream over WebSocket messages
  (data frames of section 5.6 of RFC 6455) with the frame reader and writer on top. `BufferOwnership`,
  `BufferPool` and `Pipe` are the size-class buffer pool, its users, and the copy loop.
- **Registry.** `ShardedMap`, `TunnelManager*` and `ManagerObject` are the tunnel manager: the sharded map and the
  flat map it refines, every interleaving of its compare-and-swap, add and lock steps, and its calls one by one.
  `RateLimiter` is its fixed-window limiter, `Subdomains` the names, URLs and routing.
- **Resources.** `PortAllocator`, `ConnectionLifecycle` and `ResourceLedger` follow ports, names and group IDs from
  registration to close, through every failure path.
- **Scheduler.** `SessionHeap` is the min-heap kept in place, `ConnectionGroup` the choice of a session for a new
  stream, `BalancedScheduling` what that choice comes to over whole runs; `ConcurrentOpens` interleaves callers, added
  and removed sessions and the group's `Close` step by step, `ConcurrentAlone` is one such call with nobody in between,
  and `ConcurrentRounds` says what the interleaving does to the promises.
- **Client.** `ClientPool` and `SessionScaler` are the session pool, its clamping, eviction and autoscaling, and
  `PoolClosing` its `Close` while sessions are being dialled.

Random sources, the network, clocks and what a session or a dial does are parameters: a proof holds whatever they
return. A step of a state machine that is not enabled leaves the state alone, so a run is any sequence of steps.
Where the code does not keep a promise the model keeps the code, a concrete run shows the failure, and the project
states the exact condition, both ways:

- a `Flush` racing the write loop reorders data if and only if it takes a frame while the loop holds one (`DataOrder`);
- `Close` can make somebody send on a closed channel if and only if a write call is under way (`ClosePanicsExactly`);
- `Close` takes effect, and the write loop can be ended, if and only if no write has failed before it
  (`CloseTakesEffectExactly`, `LoopCanEndExactly`);
- a reader gets exactly the frames that were written if and only if no failed write left bytes behind (`WireOfRun`);
- the tunnel counts are exact if and only if no generated name was taken by the time it was stored (`CountsExactly`);
- n concurrent callers can bring a session to 255 + n streams, and no further (`CapExactly`);
- the primary is used beside an open data session if and only if one was added after the caller's build without the
  primary had found nothing, and is still there (`PrimaryBesideExactly`, `PrimaryOpenedExactly`);
- the capacity error is true of the group it is returned for if and only if the sessions are full that were added, or
  ended a stream, since the heap was built (`CapacityErrorExactly`);
- a closed group stays empty if and only if nobody adds a session to it (`ClosedStaysEmptyExactly`);
- a closed client keeps no session if and only if none was being dialled when its sessions were taken
  (`ClosedKeepsExactly`);
- a burst undershoots the scale-down threshold if and only if it goes from one session to five (`BurstThrashesExactly`).

## Model

| member | source | states |
|---|---|---|
| `FrameWriterConservation.Conservation` | internal/shared/protocol/writer.go:208-318 | On every interleaving of producers, write loop, `Flush` and `Close`: each frame is in at most one place, the counters equal the number and bytes of the frames marked and held, accepted frames are exactly those in transit or done, and each is released exactly once |
| `FrameWriterConservation.FlushFramesEffect` | internal/shared/protocol/writer.go:166-176 | Flushing a batch attempts its frames in order, releases and unmarks each of them whatever the errors, and changes nothing else but the error latch |
| `FrameWriterConservation.UnmarkAllEffect` | internal/shared/protocol/writer.go:468-478 | Unmarking marked frames takes exactly their number and bytes out of the counters and clears their marks, no others |
| `FrameWriterConservation.OfferedFrame` | internal/shared/protocol/writer.go:223-230 | On every run a counted frame about to be offered to a queue is nowhere else in the writer, has not been done before, and carries its own size as its mark |
| `FrameWriterOrder.OrderedRuns` | internal/shared/protocol/writer.go:91-133 | Along every run both lanes keep their order, or a named pair of data frames has changed places through a `Flush` |
| `FrameWriterOrder.OvertakeBreaksDataOrder` | internal/shared/protocol/writer.go:320-341 | A `Flush` that takes a frame while the loop holds an earlier one puts the later one in front of it |
| `FrameWriterSafety.DataOrder` | internal/shared/protocol/writer.go:91-176 | Attempted data, batch, hand and queue are the enqueue order (less what `Close` discarded) if and only if at no step of the run a `Flush` took a frame while the loop held an earlier one; without such a step the attempts are a subsequence of the enqueue order |
| `FrameWriterSafety.DataOrderAt` | internal/shared/protocol/writer.go:91-176 | In every state that keeps the order invariant, order is intact if and only if nothing has been overtaken |
| `FrameWriterSafety.OvertakingIsNoted` | internal/shared/protocol/writer.go:327-337 | The history holds an overtaken pair exactly when the run has such a step |
| `FrameWriterSafety.ControlOrder` | internal/shared/protocol/writer.go:91-107 | Control frames are attempted first in, first out, on every run, and what is attempted is a subsequence of what was enqueued |
| `FrameWriterSafety.BoundedOvertaking` | internal/shared/protocol/writer.go:89-133 | From the moment a control frame enters its queue until it is attempted the loop attempts at most max(1, maxBatch) data frames, and with no `Flush` nobody attempts more |
| `FrameWriterSafety.SafeRuns` | internal/shared/protocol/writer.go:179-200 | The first failed write is latched and closes the writer; the batch stays below its limit between turns; the loop ends only on closed queues |
| `FrameWriterSafety.DrainedAfterClose` | internal/shared/protocol/writer.go:294-318 | Once `Close` and the loop are both done the queues and the batch are empty, the counters count only pending producers, and every accepted frame was released once |
| `FrameWriterSafety.FlushNeverSpins` | internal/shared/protocol/writer.go:327-337 | The receive loop of `Flush` never meets a closed queue, where its `break` would not leave the loop |
| `FrameWriterClosing.ErrorBeforeCloseKeepsLoop` | internal/shared/protocol/writer.go:188-196 | A write error before any `Close` makes every later `Close` return early: queues and loop are never shut |
| `FrameWriterClosing.CloseTakesEffectExactly` | internal/shared/protocol/writer.go:294-301 | On every reachable state a first `Close` call takes effect if and only if no attempt to write has failed; otherwise it changes nothing |
| `FrameWriterClosing.LoopCanEndExactly` | internal/shared/protocol/writer.go:89-133 | Before any `Close`, some continuation ends the write loop if and only if no attempt to write has failed: after a failure no continuation does |
| `FrameWriterClosing.QuietCloseNeverPanics` | internal/shared/protocol/writer.go:294-318 | If no write call is in progress when `Close` starts, no later step sends on a closed channel |
| `FrameWriterClosing.ClosePanicsExactly` | internal/shared/protocol/writer.go:208-318 | After a `Close` on a working writer no continuation sends on a closed channel if and only if no write call was under way when it started |
| `FrameWriterClosing.CloseFinishesSoon` | internal/shared/protocol/writer.go:294-318 | A `Close` with no write call under way finishes after at most as many of its own moves as frames are queued and four more, whatever runs beside it, and is never stuck before |
| `FrameWriterClosing.LoopEndsSoon` | internal/shared/protocol/writer.go:89-133 | Once `Close` has finished the loop makes at most four more moves, whatever runs beside it, and until it has ended it can always make the next: the drained state is reached |
| `FrameWriterClosing.CountersReachZero` | internal/shared/protocol/writer.go:294-318 | Once `Close` and the loop are done every write call still under way can return, and then both counters are zero |
| `FrameWriterClosing.ShuttingPanicsExactly` | internal/shared/protocol/writer.go:304-307 | Shutting a queue makes somebody send on a closed channel if and only if a write call is blocked on that queue |
| `FrameWriterClosing.BeatIsAttempted` | internal/shared/protocol/writer.go:135-142 | A heartbeat frame is attempted at once, past everything queued, and changes no queue; without one the loop just goes on |
| `FrameWriterClosing.WaitingLoopMovesOn` | internal/shared/protocol/writer.go:109-159 | A loop waiting in its second `select` goes round again on changed heartbeat settings, and ends, its batch written, when the data queue is closed and empty |
| `FrameWriterClosing.SettingsDecide` | internal/shared/protocol/writer.go:373-384 | With adaptive flushing on, the next frame is written with its batch iff the batch is full or the queue is no longer than the setting; with it off, iff the batch is full |
| `FrameWriterQueues.QueuesBounded` | internal/shared/protocol/writer.go:51-61 | On every run the data queue holds at most the queue size, and the control queue at most that and at most 256 |
| `FrameWriterQueues.CapacityExactly` | internal/shared/protocol/writer.go:51-61 | These are the least bounds: a number bounds a queue on every run if and only if it is at least the queue size, for control frames the smaller of it and 256 |
| `FrameWriterWitnesses.FlushCanOvertake` | internal/shared/protocol/writer.go:109-118 | A concrete run in which `Flush` has the second frame written before the first |
| `FrameWriterWitnesses.CloseCanPanicProducer` | internal/shared/protocol/writer.go:213-230 | A concrete run in which a producer past its closed check sends on the queue `Close` has closed |
| `FrameWriterWitnesses.ErrorCanDisableClose` | internal/shared/protocol/writer.go:188-196 | A concrete run in which an oversized frame fails before any `Close`, and the `Close` after it leaves queues and loop open |
| `FrameWriterWire.WireOfRun` | internal/shared/protocol/writer.go:166-200 | On every run the attempts are in one order across data, control and heartbeat frames, each frame once, each kind in its own order; a reader of the resulting bytes gets exactly the frames whose writes succeeded, in that order with nothing left, if and only if no failed write left bytes behind |
| `FrameWriterWitnesses.TornFrameMisleadsReader` | internal/shared/protocol/writer.go:166-200 | A concrete batch whose first frame fails after its header and whose second is written whole behind it: the reader does not get what was written |
| `FrameWriterWire.ReadBeforeFailure` | internal/shared/protocol/writer.go:188-200 | Whatever is written after a failure, the frames attempted before it are read first and intact |
| `FrameWriterWire.FailureStopsNothing` | internal/shared/protocol/writer.go:171-173 | A batch goes on after a failed write: every frame behind it is attempted too, in order |
| `FrameWriterWire.WireAddsUp` | internal/shared/protocol/frame.go:66-90 | The bytes sent are those of the successful encodings plus what failed writes left, and just the encodings if that is nothing |
| `FrameWriterObject.Writer.UnmarkQueued` | internal/shared/protocol/writer.go:468-478 | Swaps the frame's mark for zero and subtracts one frame and the marked bytes, or nothing if it was not marked |
| `FrameWriterObject.Writer.FlushFrameLocked` | internal/shared/protocol/writer.go:179-200 | One attempt, which fails above 1 MiB or where the writer does; the first failure is latched and closes; then the mark is taken out of the counters and the frame released |
| `FrameWriterObject.Writer.FlushBatchLocked` | internal/shared/protocol/writer.go:166-176 | The loop over the batch is the flush of its frames in order, and leaves the batch empty |
| `FrameWriterObject.Writer.Flush` | internal/shared/protocol/writer.go:320-341 | On an open writer everything batched and then everything queued is attempted, in that order; the call is a run of the step model |
| `FrameWriterObject.Writer.Close` | internal/shared/protocol/writer.go:294-318 | The first call shuts both queues and, unless that makes a blocked write call panic, discards exactly what is queued, data then control; it panics iff a write call is blocked; a call on a closed writer changes nothing |
| `FrameWriterObject.Writer.Write` | internal/shared/protocol/writer.go:208-292 | A data write is accepted iff the writer is open and fewer frames than the queue size are queued, a control write iff it is open and fewer control frames than the queue size and than 256 are; accepted, it is counted with five bytes more than its payload and queued last; refused, counters and queues are as before |
| `FrameWriterObject.Writer.AbandonWrite` | internal/shared/protocol/writer.go:246-291 | A blocked write that times out or is cancelled takes its frame out of the counters and back to its caller |
| `FrameWriterObject.Writer.PollControlQueue` | internal/shared/protocol/writer.go:89-107 | One control frame is attempted before anything else; a closed empty control queue flushes the batch and ends the loop |
| `FrameWriterObject.Writer.HandleData` | internal/shared/protocol/writer.go:109-126 | The next data frame joins the batch, which is written at once iff it is full or adaptive flushing finds the queue short |
| `FrameWriterObject.Writer.HandleTick` | internal/shared/protocol/writer.go:128-133 | A tick attempts the whole batch in order |
| `Subdomains.GeneratedNamesAreValid` | internal/shared/utils/subdomain.go:16-46 | Every generated name of 3 to 63 characters is valid, and one of 8 or more is never reserved |
| `Subdomains.GenerateSubdomain` | internal/shared/utils/subdomain.go:19-38 | The result has the requested length, or 6; each character is the letter or digit the draw numbers, and where the draw fails the one its position numbers |
| `Subdomains.DecimalReadsBack` | internal/server/tcp/registration_handler.go:90-92 | Printing a number in decimal and reading its digits gives the number back |
| `Subdomains.PortInDigits` | internal/server/tcp/registration_handler.go:90-92 | A number below 100000 in decimal: as many digits as it needs, most significant first, adding up to it |
| `Subdomains.TcpNameRoundTrip` | internal/server/tcp/connection.go:299-315 | For every port 1 to 65535 the name `tcp-<port>` parses back to the port and is valid and unreserved |
| `Subdomains.ClaimsPortExactly` | internal/server/tcp/connection.go:299-315 | A name claims a port iff it is `tcp-`, perhaps a plus sign, and digits that come to that port, from 1 to 65535 |
| `Subdomains.ReservedNames` | internal/shared/utils/subdomain.go:49-66 | Exactly thirteen names are reserved, all of 3 to 7 characters and none like a TCP name |
| `Subdomains.ValidTcpNameIsDigits` | internal/server/tcp/connection.go:299-315 | A valid name that claims a port is `tcp-` and digits whose value is that port |
| `Subdomains.UrlRoutesBack` | internal/shared/utils/url_builder.go:24-29 | Host and port of a printed tunnel URL are routed back to the same name, unless name and tunnel domain together are the server domain |
| `Subdomains.UrlTellsPort` | internal/shared/utils/url_builder.go:24-29 | The port printed in a tunnel URL reads back as the public port, and is left out iff that is 443 |
| `Subdomains.RoutingIsExact` | internal/server/proxy/handler.go:408-427 | A host is routed to a name iff, without its port, it is that name, a dot and the tunnel domain, and not the server domain; and to the server iff it is the server domain |
| `Subdomains.BeforeColonExactly` | internal/server/proxy/handler.go:409-411 | A host loses everything from its first colon on, and nothing else |
| `Subdomains.ValidIsPattern` | internal/shared/utils/subdomain.go:41-46 | A name passes the check exactly when the regular expression matches, that is, when it has 3 to 63 lower-case letters, digits and hyphens and no hyphen at an end |
| `ShardedMap.FlatLookup` | internal/server/tunnel/manager.go:129-133 | For any hash function, looking a name up in its shard is looking it up in one flat map |
| `ShardedMap.PutIsFlat` | internal/server/tunnel/manager.go:236-240 | Storing in the shard of the name is storing in the flat map, and keeps every key in its own shard with both shard maps in step |
| `ShardedMap.DeleteIsFlat` | internal/server/tunnel/manager.go:289-291 | Deleting from the shard of the name is deleting from the flat map, with placement kept |
| `ShardedMap.FlatSize` | internal/server/tunnel/manager.go:329-343 | The shard sizes add up to the size of the flat map: no name is stored twice |
| `TunnelManagerCounting.BooksBalance` | internal/server/tunnel/manager.go:141-317 | Over every interleaving of registrations, removals and sweeps, one CAS, add or lock section at a time: counters equal stored tunnels, slots in flight and displaced tunnels, globally and per address; no zero entries; valid unreserved names in their own shards |
| `TunnelManagerCounting.CountsExactly` | internal/server/tunnel/manager.go:141-275 | On every run tunnels <= count <= limit, globally and per address, and the count equals stored tunnels plus slots in flight if and only if every generated name was still free when it was stored, per address if and only if that held for the tunnels of that address it replaced |
| `TunnelManagerCounting.IPWithinLimit` | internal/server/tunnel/manager.go:173-190 | The tunnels of an address never outnumber its count, and the count never exceeds the limit per address |
| `TunnelManagerCounting.FreshExactly` | internal/server/tunnel/manager.go:242-253 | Tunnels are displaced on a run if and only if one of its steps stores a generated name that was no longer free |
| `TunnelManagerCounting.FreshForExactly` | internal/server/tunnel/manager.go:242-253 | An address loses a tunnel to displacement if and only if some step stores a generated name over one of its tunnels |
| `TunnelManagerCounting.IPExactly` | internal/server/tunnel/manager.go:173-190 | The count of an address is its tunnels plus its slots in flight if and only if none of its tunnels was displaced, and stays within the limit in any case |
| `TunnelManagerCounting.GuardsNeverFail` | internal/server/tunnel/manager.go:194-208 | Every `> 0` guard before a decrement is true whenever it is reached |
| `TunnelManagerCounting.CustomNeverDisplaces` | internal/server/tunnel/manager.go:212-241 | A requested name is stored iff it is valid, unreserved and free, it is then the only change, and it displaces nothing |
| `TunnelManagerCounting.QuietCount` | internal/server/tunnel/manager.go:346-348 | With no call in flight the count is the stored tunnels plus those lost to displacement |
| `TunnelManagerCounting.SlotCanBeLost` | internal/server/tunnel/manager.go:244-252 | Without freshness: two registrations that choose one name leave a count of two over one stored tunnel |
| `TunnelManagerAlone.RegistersExactly` | internal/server/tunnel/manager.go:141-275 | In any state the manager can be in, with any calls half way through, a registration that nobody interrupts succeeds or gives one of the six errors exactly under its own condition; a success adds the one tunnel and its two slots, a refusal leaves everything as it was |
| `TunnelManagerAlone.UnregistersExactly` | internal/server/tunnel/manager.go:278-317 | And an unregistration takes out exactly the named tunnel with its two slots, or changes nothing |
| `TunnelManagerAlone.SweepsExactly` | internal/server/tunnel/manager.go:359-395 | A sweep that finds the tunnel stale does the same |
| `TunnelManagerAlone.RemovalTakesBack` | internal/server/tunnel/manager.go:278-317 | Registering and then removing, either way, gives back the tunnels and both counters as they were |
| `ManagerObject.Manager.RegisterWithIP` | internal/server/tunnel/manager.go:141-275 | Succeeds iff the count is below the limit, the address is empty or admitted with room, and the requested name, if any, is valid, unreserved and free; each of the six errors iff its own condition holds and no earlier one; a success is one tunnel and both counters one up, an error leaves no trace but the rate-limit entry; only the unchecked fallback name can displace a tunnel |
| `ManagerObject.Manager.ReserveGlobal` | internal/server/tunnel/manager.go:143-157 | The compare-and-swap loop takes a slot iff the count is below the limit |
| `ManagerObject.Manager.ReserveSlots` | internal/server/tunnel/manager.go:143-191 | Takes the global and the address slot iff there is room for both and the limiter admits; else gives the error of the first check that fails and undoes what was taken before it |
| `ManagerObject.Manager.GenerateUniqueSubdomain` | internal/server/tunnel/manager.go:423-444 | The first of ten short draws that is neither reserved nor registered, else the long draw unchecked |
| `ManagerObject.Manager.Unregister` | internal/server/tunnel/manager.go:278-317 | Removes exactly the named tunnel and one slot of its address, or changes nothing |
| `ManagerObject.Manager.Get` | internal/server/tunnel/manager.go:320-326 | Agrees with the flat map |
| `ManagerObject.Manager.List` | internal/server/tunnel/manager.go:329-343 | Lists every tunnel of the flat map exactly once |
| `ManagerObject.Manager.CleanupStale` | internal/server/tunnel/manager.go:351-404 | Removes exactly the stale tunnels, reports their number, lowers the count by it, and sweeps the rate limiter |
| `RateLimiter.RateLimiter.CheckAndIncrement` | internal/server/tunnel/rate_limiter.go:37-68 | Admits iff the window is new or has room, and updates only that address |
| `RateLimiter.RateLimiter.Cleanup` | internal/server/tunnel/rate_limiter.go:71-86 | Deletes exactly the entries whose window is over, leaves the others as they are and reports how many went |
| `RateLimiter.CleanupChangesNoDecision` | internal/server/tunnel/rate_limiter.go:71-86 | Under a monotone clock a run with cleanups anywhere decides every request as the run without them |
| `RateLimiter.SlidingWindowBound` | internal/server/tunnel/rate_limiter.go:37-68 | In any run every closed interval of one window's length holds at most 2 * limit - 1 admissions of an address (limit at least 1) |
| `RateLimiter.SlidingWindowBoundIsTight` | internal/server/tunnel/rate_limiter.go:37-68 | For every limit and window a run reaches that bound |
| `RateLimiter.RefusalMeansBusy` | internal/server/tunnel/rate_limiter.go:37-68 | Under a monotone clock an address is refused only if at least the limit of its requests were admitted within the last window's length |
| `SessionHeap.RootIsLeast` | internal/server/tcp/connection_group.go:29-40 | The root of a heap is no more loaded than any entry |
| `SessionHeap.SiftStep` | internal/server/tcp/connection_group.go:31-40 | Moving the smaller child up moves the one violation of the heap order down |
| `SessionHeap.Heap.Down` | internal/server/tcp/connection_group.go:29-40 | Sift-down in place restores the heap order from a position on, permutes only the front part and leaves the rest |
| `SessionHeap.Heap.Init` | internal/server/tcp/connection_group.go:344-373 | Any slice becomes a heap of the same entries |
| `SessionHeap.Heap.Pop` | internal/server/tcp/connection_group.go:294-296 | Removes one entry with the fewest streams and leaves a heap of the others |
| `SessionHeap.Heap.Drain` | internal/server/tcp/connection_group.go:294-319 | Init and repeated Pop give all entries in non-decreasing stream count |
| `ConnectionGroup.Group.GetSlice` | internal/server/tcp/connection_group.go:58-64 | Whatever the pool returns is an empty slice, so the early return for an empty group is an empty heap |
| `ConnectionGroup.Group.BuildSessionHeap` | internal/server/tcp/connection_group.go:344-373 | A heap of exactly the open sessions with their loads, each once, the primary only on request |
| `ConnectionGroup.Group.DeleteClosedSessions` | internal/server/tcp/connection_group.go:375-384 | Keeps exactly the open sessions |
| `ConnectionGroup.Group.AddSession` | internal/server/tcp/connection_group.go:219-241 | Stores an open session under a non-empty ID, in place of any before it |
| `ConnectionGroup.Group.RemoveSession` | internal/server/tcp/connection_group.go:243-260 | Takes out the session of a non-empty ID, and no other |
| `ConnectionGroup.Group.TryHeap` | internal/server/tcp/connection_group.go:293-322 | Sessions are asked in order of load, each at most once and only below the cap; the winner gains one stream and every less loaded one had refused |
| `ConnectionGroup.Group.OpenStream` | internal/server/tcp/connection_group.go:269-341 | With nobody else at work but closes of the session just asked: terminates; a success adds one stream to one open session below 256 after every less loaded session of its kind refused; if no session closed on being asked nothing else changes, and otherwise exactly the sessions go that are or were found closed; the primary only with no other open session; a failure after three attempts has asked every session below 256 three times, and the capacity error means all candidates are full |
| `ConnectionGroup.Group.Close` | internal/server/tcp/connection_group.go:187-211 | The first call stops the group and empties it, later calls do nothing |
| `BalancedScheduling.Balanced` | internal/server/tcp/connection_group.go:269-341 | From n open non-primary sessions with c streams each, k successful opens leave every one at c + floor(k/n) or c + ceil(k/n), k mod n of them higher; the primary gains nothing; k <= (256-c)n, and all sessions are full exactly at equality |
| `BalancedScheduling.OpenUpTo` | internal/server/tcp/connection_group.go:269-341 | `OpenStream` called up to a limit on n equally loaded sessions: the streams end up evenly spread, other sessions keep theirs, and the capacity error comes exactly at (256-c)n streams |
| `BalancedScheduling.SpreadFromEmpty` | internal/server/tcp/connection_group.go:219-341 | The same from a new group to which the sessions are added first |
| `BalancedScheduling.LevelRuns` | internal/server/tcp/connection_group.go:269-341 | Along such a run the loads stay level: all at the even share but for the remainder, which is one higher; other sessions keep theirs |
| `BalancedScheduling.LeadNeverGrows` | internal/server/tcp/connection_group.go:269-341 | From any loads, the lead of one session over another never grows beyond one stream, and none exceeds the cap |
| `BalancedScheduling.LevelStep` | internal/server/tcp/connection_group.go:294-319 | A least-loaded session of a level group is one of the lower ones, and opening on it keeps the group level |
| `ConcurrentOpens.CapPassedByAtMost` | internal/server/tcp/connection_group.go:269-373 | With n callers interleaved step by step, every lock section, session scanned and check on its own, and sessions added, replaced, removed, closing and finishing streams in between, no session ever carries more than 255 + n streams, those about to be opened included |
| `ConcurrentOpens.CapExactly` | internal/server/tcp/connection_group.go:302-308 | And that bound is the least one: a number bounds every run if and only if it is at least 255 + n |
| `ConcurrentRounds.OutcomeMeans` | internal/server/tcp/connection_group.go:281-340 | On every run, at the end of a call: a win adds one stream to the open session that was checked and changes nothing else; an error changes nothing; the closed error comes only in a stopped group or one with no open session |
| `ConcurrentRounds.PrimaryBesideExactly` | internal/server/tcp/connection_group.go:285-288 | A heap with the primary in it follows a build without the primary that found nothing; any other session in it was added between the two builds, all that are open and still members are in it, and so it holds an open one beside the primary if and only if one was added in between and is still there |
| `ConcurrentRounds.PrimaryOpenedExactly` | internal/server/tcp/connection_group.go:285-308 | When a caller is about to open on the primary no other session is open if and only if none that was added since its empty build is open and still a member |
| `ConcurrentRounds.PrimaryBesideData` | internal/server/tcp/connection_group.go:285-308 | A concrete run in which the primary is about to be opened on beside an open, empty data session |
| `ConcurrentRounds.CapacityErrorExactly` | internal/server/tcp/connection_group.go:293-326 | With any interleaving the last round ends with the capacity error if and only if none of its checks found a session below the cap; and then all open sessions it could use are full, as the error says, if and only if those are that were added or ended a stream since its heap was built |
| `ConcurrentRounds.CapacityErrorCanBeFalse` | internal/server/tcp/connection_group.go:293-326 | A concrete run that returns the capacity error in a group whose one open session has no streams |
| `ConcurrentRounds.ClosedStaysEmptyExactly` | internal/server/tcp/connection_group.go:187-241 | A closed group is empty and stays so if and only if nobody adds a session to it, which `AddSession` does not refuse |
| `ConcurrentRounds.ClosedTurnsAway` | internal/server/tcp/connection_group.go:279-283 | A call that starts after the group was closed never opens a stream, whatever is added |
| `ConcurrentAlone.CallAlone` | internal/server/tcp/connection_group.go:269-341 | In any state other callers may have left, a call that nobody interrupts ends closed iff the group is stopped or has no open session, at capacity iff all sessions it may use carry 256 streams, and else with one more stream on a least loaded of them and nothing else changed |
| `FrameCodec.DecodeIsExact` | internal/shared/protocol/frame.go:66-131 | `Decode` yields a frame and a rest iff the bytes are the encoding of that frame, at most 1 MiB of payload, followed by that rest |
| `FrameCodec.StreamRoundTrip` | internal/shared/protocol/frame.go:66-131 | Concatenated encodings decode to the same frames, whatever follows |
| `FrameCodec.StreamIsExact` | internal/shared/protocol/frame.go:92-131 | A stream decodes to frames with nothing left iff it is their concatenated encoding |
| `FrameCodec.NumberOfBigEndian` | internal/shared/protocol/frame.go:72-74 | The four length bytes read back as the length |
| `FrameCodec.BigEndianOfNumber` | internal/shared/protocol/frame.go:99-102 | And every four bytes are the encoding of what they announce |
| `FrameCodec.BigEndianOrder` | internal/shared/protocol/frame.go:72-74 | In the first length byte in which two lengths differ the smaller one is smaller: most significant byte first |
| `FrameCodec.DecodeBytes` | internal/shared/protocol/frame.go:92-131 | The format and its four errors byte by byte: the first four bytes weighed 2^24, 2^16, 2^8 and 1 are the length, at most 1048576, the fifth is the type, the payload follows |
| `FrameCodec.FrameIsNotHTTP` | internal/shared/httputil/detection.go:12-24 | The first four bytes of a frame are never taken for an HTTP request |
| `FrameCodec.HTTPIsNotAFrame` | internal/server/tcp/connection.go:111-127 | Bytes that look like HTTP never decode as a frame: the length is too large |
| `FrameCodec.HTTPExactly` | internal/shared/httputil/detection.go:6-24 | Bytes are taken for HTTP iff the first four are one of the nine beginnings of a request line |
| `WebSocketConn.Conn.Read` | internal/shared/wsutil/conn.go:48-77 | Delivers the next bytes of the concatenated binary messages, skipping empty and non-binary ones, and fails only with nothing left |
| `WebSocketConn.Conn.ReadFull` | internal/shared/protocol/frame.go:92-97 | Fills the buffer with the next bytes in whatever chunks they come, a size of its own for every read, and succeeds iff there are enough |
| `WebSocketConn.Conn.ReadFrame` | internal/shared/protocol/frame.go:92-131 | Returns the frame the pending bytes begin with, length most significant byte first, and consumes exactly that; or the error, each exactly when the bytes end early or announce more than 1048576 |
| `WebSocketConn.Conn.WriteFrame` | internal/shared/protocol/frame.go:66-90 | On success the stream grows by the length in four bytes, most significant first, the type and the payload, as binary messages; a payload above 1048576 bytes sends nothing; a failure after the header leaves just the header |
| `WebSocketConn.Conn.Write` | internal/shared/wsutil/conn.go:80-89 | One binary message per write, or none on error |
| `WebSocketConn.ReadAll` | internal/shared/protocol/frame.go:92-131 | Reading frames until an error, in whatever chunks the bytes come, gives exactly what the pending bytes decode to, with nothing left after a clean end |
| `WebSocketConn.SendAll` | internal/shared/protocol/frame.go:66-90 | Frames written one after the other all go out iff each fits and its writes succeed, and then the stream grows by their encodings |
| `WebSocketConn.RoundTrip` | internal/shared/wsutil/conn.go:48-89 | Any frames sent by `WriteFrame` are read back by `ReadFrame` exactly, in order and with nothing left, through any messages that carry the same bytes and any delivery |
| `WebSocketConn.CutAnywhere` | internal/shared/wsutil/conn.go:48-77 | Cutting a message in two anywhere leaves the byte stream the same |
| `WebSocketConn.OthersIgnored` | internal/shared/wsutil/conn.go:48-77 | So does putting in or leaving out an empty or non-binary message |
| `FrameCodec.WrittenInOrder` | internal/shared/protocol/frame.go:66-90 | Writing one more frame appends its encoding to the stream |
| `WebSocketConn.HandleFrames` | internal/server/tcp/frame_handler.go:55-77 | The loop serves the pending bytes as the recursive specification does, until stop, close request, end, time-out or error |
| `WebSocketConn.CleanEndExactly` | internal/server/tcp/frame_handler.go:55-98 | The handler reports a clean disconnect if and only if the transport ended with an end of file, the bytes are whole frames with no close request among them, and no stop was seen at any look |
| `WebSocketConn.ServesAllFrames` | internal/server/tcp/frame_handler.go:55-122 | Of any frames, all before the first close request are served and their heartbeats counted; the end is that request, else a clean disconnect, a time-out or a failure as the transport ends |
| `WebSocketConn.ServesExactly` | internal/server/tcp/frame_handler.go:55-122 | Whatever the bytes and the stop channel: frames are taken up to the first turn that sees a stop, a close request or no further frame; heartbeats among them are counted, and that turn says how it ends, a stop seen only after a failed read included |
| `BufferOwnership.BuffersOwnedOnce` | internal/shared/pool/buffer_pool.go:48-79 | Over every run of reads, releases, pipes and collection: a buffer is free once in the class of its exact capacity or owned by one live holder, never both, and every slice is within capacity |
| `BufferOwnership.GivenBack` | internal/shared/protocol/frame.go:119-141 | A short read, a release and the end of a pipe make the buffer free, exactly once, and touch no other holder |
| `BufferOwnership.GetIsFresh` | internal/shared/pool/buffer_pool.go:48-59 | What `Get` hands out belongs to nobody and has the capacity of the class asked |
| `BufferOwnership.PutKeeps` | internal/shared/pool/buffer_pool.go:61-79 | A buffer that belongs to nobody goes back to the class of its capacity and nothing else changes hands |
| `BufferOwnership.PassOn` | internal/shared/protocol/frame.go:115-141 | A holder that becomes another or ends passes its buffer on or leaves it ownerless |
| `BufferOwnership.ClassesFit` | internal/shared/pool/buffer_pool.go:48-79 | Requests are served by the smallest of 4, 32, 256 and 1024 KiB that fits, only buffers of these sizes go back, and `Put` is the inverse of the choice |
| `BufferOwnership.ReadStartsExactly` | internal/shared/protocol/frame.go:98-124 | Reading a payload: refused above 1 MiB, without a pooled buffer when empty or above 256 KiB, and else into a buffer of the smallest size that fits, a kept one or a new one |
| `BufferOwnership.PipeStartsExactly` | internal/shared/netutil/pipe.go:44-78 | A pipe takes a buffer for the size asked for, 32 KiB if none is and 256 KiB at most |
| `BufferOwnership.ReadBecomesFrame` | internal/shared/protocol/frame.go:126-141 | A full read turns into a frame that owns the buffer, and releasing a frame again does nothing |
| `BufferPool.Pool.Get` | internal/shared/pool/buffer_pool.go:48-59 | A kept buffer of the smallest of the four sizes that fits, if the pool has one, or else a new one; it leaves the free set |
| `BufferPool.Pool.Put` | internal/shared/pool/buffer_pool.go:61-79 | Restores the full slice and frees the buffer iff its capacity is one of the four sizes |
| `BufferPool.Frame.Release` | internal/shared/protocol/frame.go:133-141 | Gives the buffer back once; any further call frees nothing |
| `BufferPool.SafeFrame.Close` | internal/shared/protocol/safe_frame.go:12-19 | Releases the frame the first time only |
| `BufferPool.ReadPayload` | internal/shared/protocol/frame.go:106-130 | The buffer taken, kept or new, is free after a short read and with the frame after a full one; above 256 KiB none is taken, and no other buffer changes hands |
| `Pipe.CopyBuffer` | internal/shared/netutil/pipe.go:133-164 | The loop does what the specification of the script says: bytes accepted, reports, number written and the way it ends |
| `Pipe.CopyIsFaithful` | internal/shared/netutil/pipe.go:133-164 | Accepted bytes are a prefix of delivered ones, reports add up to them, and only a failed or short write leaves a gap, of at most one buffer |
| `Pipe.NilErrorExactly` | internal/shared/netutil/pipe.go:133-164 | The error is nil iff end of file comes after turns that were all written completely, itself included |
| `Pipe.EndsExactly` | internal/shared/netutil/pipe.go:133-164 | Each way the copy can end, stop, end of file, read error, write error, short write, exactly when the first turn that does not carry on says so |
| `Pipe.PipeBuffer` | internal/shared/netutil/pipe.go:105-130 | The clamped size fits the pooled buffer, which is free again at the end |
| `PortAllocator.NewPortAllocator` | internal/server/tcp/port_allocator.go:21-31 | An allocator exists iff the range is valid |
| `PortAllocator.Allocator.Allocate` | internal/server/tcp/port_allocator.go:34-57 | Returns and reserves the port of the first attempt that is unreserved and can be bound, or fails iff no attempt is |
| `PortAllocator.Allocator.AllocateSpecific` | internal/server/tcp/port_allocator.go:60-80 | Reserves the port iff it is in range, unreserved and can be bound, with the error of the first check that fails |
| `PortAllocator.EveryPortHasADraw` | internal/server/tcp/port_allocator.go:88-101 | Every draw gives a port of the range, and every port of the range has a draw |
| `ResourceLedger.LedgerBalances` | internal/server/tcp/registration_handler.go:69-161 | Over every run of registrations, failures and closes: used ports and names are exactly those held, no two connections share a port, a name or a tunnel ID, and every group belongs to a live connection |
| `ResourceLedger.HoldersExist` | internal/server/tcp/registration_handler.go:69-161 | Every used port and name has a holder, every holding is in its map, every group has its connection |
| `ResourceLedger.HoldersDiffer` | internal/server/tcp/connection.go:199-227 | Ports, names and tunnel IDs held by different connections differ |
| `ResourceLedger.ReturnedExactlyOnce` | internal/server/tcp/lifecycle_manager.go:93-137 | Port and name are returned at most once, and a closed connection has returned whatever it got and owns no group |
| `ResourceLedger.NothingLeftBehind` | internal/server/tcp/lifecycle_manager.go:93-137 | With all connections closed no port, name or group is left |
| `ResourceLedger.TunnelAlwaysFound` | internal/server/tcp/registration_handler.go:106-110 | The "failed to get registered tunnel" exit is unreachable |
| `ResourceLedger.NameTellsPort` | internal/server/tcp/registration_handler.go:77-94 | A registered TCP tunnel whose name claims a port holds that port |
| `ResourceLedger.LookupSucceeds` | internal/server/tcp/registration_handler.go:96-110 | The name just registered is still there at the lookup and belongs to the connection |
| `ResourceLedger.LedgerRuns` | internal/server/tcp/connection.go:199-227 | The lifecycle record matches what the connection holds from the moment it is written until it is closed |
| `ResourceLedger.ServedWhenFree` | internal/server/tcp/connection.go:199-227 | In any state a request for a free port and a free name is served, and takes exactly that port, that name and its group |
| `ResourceLedger.FreedWhenClosed` | internal/server/tcp/lifecycle_manager.go:93-137 | When that connection closes, ports, names and groups are as before it came, each returned once, its group swept meanwhile or not |
| `ResourceLedger.RefusedLeavesNothing` | internal/server/tcp/registration_handler.go:69-161 | A registration that fails at the checks, at the port or at the name leaves ports, names and groups as they were, the port returned once if it had one |
| `ConnectionLifecycle.RegistrationHandler.Register` | internal/server/tcp/registration_handler.go:69-161 | Succeeds iff there is a port to be had, if one is needed, and room and a name in the manager; each error exactly when its step is the first to fail; success adds exactly the port and the tunnel, every failure leaves ports and tunnels as they were |
| `ConnectionLifecycle.RegistrationHandler.AllocatePort` | internal/server/tcp/registration_handler.go:70-94 | The requested port iff the name asks for one that is in range, unreserved and bindable, else the first of the drawn ports that is; each error exactly when its case arises, and then nothing is reserved |
| `ConnectionLifecycle.LifecycleManager.Close` | internal/server/tcp/lifecycle_manager.go:93-137 | The first call returns exactly what is on record, any other changes nothing |
| `ConnectionLifecycle.HandleConnection` | internal/server/tcp/connection.go:104-232 | Succeeds iff the request is accepted and port, room and name are to be had; with the deferred close it leaves ports, tunnels and groups as they were, however far it got |
| `ConnectionLifecycle.RegisterAndRecord` | internal/server/tcp/connection.go:199-227 | Succeeds on the same condition as the registration, and what the lifecycle manager is then told to release is exactly what was taken |
| `ConnectionLifecycle.GroupManager.CreateGroup` | internal/server/tcp/connection_group_manager.go:49-60 | Adds one fresh open group under the ID |
| `ConnectionLifecycle.GroupManager.RemoveGroup` | internal/server/tcp/connection_group_manager.go:72-83 | Takes the group out and closes it |
| `ConnectionLifecycle.GroupManager.CleanupStaleGroups` | internal/server/tcp/connection_group_manager.go:100-122 | Takes out and closes exactly the stale groups and leaves the others untouched |
| `ConnectionLifecycle.GroupManager.TakeStale` | internal/server/tcp/connection_group_manager.go:100-117 | Under the lock exactly the stale groups leave the map and are collected |
| `ClientPool.ClampBounds` | internal/client/tcp/pool_client.go:129-146 | For any configuration 1 <= min <= initial <= max, with each bound as configured where that is consistent |
| `ClientPool.Pool.RemoveIdleSessions` | internal/client/tcp/pool_session.go:280-327 | Removes at most n sessions, all idle, none active later than an idle one kept, and terminates under interference; undisturbed it removes exactly min(n, idle) and nothing else changes |
| `ClientPool.Pool.FindOldest` | internal/client/tcp/pool_session.go:304-314 | The unmarked idle candidate with the earliest activity, or none iff there is none |
| `ClientPool.Pool.Close` | internal/client/tcp/pool_client.go:437-483 | The first call leaves no session, later calls change nothing |
| `ClientPool.Pool.AddDataSession` | internal/client/tcp/pool_session.go:180-277 | With nobody closing the client meanwhile: one new idle session iff dialling succeeds on an open client |
| `ClientPool.Pool.CloseDuringDial` | internal/client/tcp/pool_session.go:180-265 | A session dialled while the client is being closed is stored in the closed client |
| `PoolClosing.ClosedKeepsExactly` | internal/client/tcp/pool_client.go:437-458 | Over every interleaving of dials, stores, removals and `Close`: the least bound on the sessions left after `Close` has taken them is the number of `addDataSession` calls then past their look at the stop channel; so none is ever left if and only if there was no such call |
| `PoolClosing.AllAccountedFor` | internal/client/tcp/pool_session.go:180-265 | On every run each session dialled is in the pool, or closed, or about to be stored, and only one of these |
| `PoolClosing.AddsAlone` | internal/client/tcp/pool_session.go:180-265 | A call that nobody interrupts stores the session it dials, and changes nothing if the dial fails or the client was stopped before |
| `PoolClosing.ClosesAlone` | internal/client/tcp/pool_client.go:437-458 | A close that nobody interrupts shuts every session of a running client, and a second one does nothing |
| `SessionScaler.DecisionInBounds` | internal/client/tcp/session_scaler.go:92-148 | Every decision leaves room below the maximum and a target between min(min, 5) and the maximum |
| `SessionScaler.DecisionExactly` | internal/client/tcp/session_scaler.go:92-148 | The decision in whole numbers: up to four sessions more above nine tenths of 256 streams a session; one more above six tenths, a second after the last change; one less below two tenths and above the minimum, a minute after it; nothing otherwise |
| `SessionScaler.TurnExactly` | internal/client/tcp/session_scaler.go:67-149 | And what a turn makes of it when no session is lost meanwhile: the sessions whose dials succeed, at most one idle session less, the target and the time of the change |
| `SessionScaler.WarmsUpExactly` | internal/client/tcp/pool_session.go:42-69 | The warm-up dials what is missing of the initial number and keeps what succeeds |
| `SessionScaler.Scaler.Tick` | internal/client/tcp/session_scaler.go:67-149 | One turn does what the decision says: sessions added as far as dials succeed, the oldest idle one removed and never below the minimum, target and time recorded |
| `SessionScaler.PoolStaysInBounds` | internal/client/tcp/pool_session.go:42-69 | Over every run of warm-up, turns, failed dials and losses: 1 <= sessions <= max and min(min, 5) <= target <= max |
| `SessionScaler.ScaleDownKeepsMinimum` | internal/client/tcp/session_scaler.go:131-148 | A scale-down leaves at least the minimum, less only what others lost while it ran |
| `SessionScaler.ScaleDownDoesNotThrash` | internal/client/tcp/session_scaler.go:40-47 | A scale-down leaves the load below 0.4, under the scale-up threshold |
| `SessionScaler.ScaleUpDoesNotThrash` | internal/client/tcp/session_scaler.go:40-47 | Adding one session leaves the load above 0.3, over the scale-down threshold |
| `SessionScaler.BurstThrashesExactly` | internal/client/tcp/session_scaler.go:92-110 | A burst can take the load below the scale-down threshold if and only if it goes from one session to five |
| `SessionScaler.ShrinkIsNotUndone` | internal/client/tcp/session_scaler.go:130-148 | With the same traffic no later turn grows the pool after a scale-down |
| `SessionScaler.GrowthIsNotUndone` | internal/client/tcp/session_scaler.go:92-129 | With the same traffic no later turn shrinks it after one session added, or after a burst from at least two |

## Left out

- `Manager.Shutdown`, `StartWritePump`, heartbeat loops, logging, metrics, JSON payloads, tokens, the HTTP proxy, access rules and the auth rate limiter: plumbing around the modelled core; `PoolClient.scalerLoop` and `ensureSessions` are never called.
- FrameWriterConservation.Conservation: the three counter updates of one write call (`queuedFrames`, `queuedBytes`, the frame's own mark) are one step, so the moments between them are not observed; nor are those inside two other steps, `Close` receiving a queued frame, unmarking and releasing it, and the attempts, unmarks and releases of one batch under the mutex; a frame is offered again only after it has come back to its caller; an unbuffered queue (size 0, a rendezvous) accepts nothing in the model.
- FrameWriterSafety.BoundedOvertaking: counts the loop's attempts; a concurrent `Flush` may attempt any number of data frames in between, which is why the total is bounded only for runs without one.
- FrameWriterObject.Writer.Write: methods of the object run one at a time; interleaving is the business of the step model, to which each method is tied by its trace.
- The heartbeat callback, `preWriteHook` and `onWriteError` are environment: a heartbeat is an optional unmarked frame.
- TunnelManagerCounting.BooksBalance: a stale sweep holds its shard lock over all its removals in the program, here other calls may come in between (more runs, not fewer); the rate limiter's answer is any Boolean in the interleaved model and the real table in ManagerObject.
- TunnelManagerAlone.RegistersExactly: a generated name is one of the ten short draws; the unchecked long one is in ManagerObject.Manager.RegisterWithIP.
- The FNV hash is an arbitrary function; shard locks and the connection's own state (`Close`, `IsAlive`) are environment.
- RateLimiter.SlidingWindowBound: a limit below 1 still admits one request per window, as in the code, hence max(1, limit).
- ConnectionGroup.Group.OpenStream: one call at a time, apart from closes of the session just asked; interleaved callers and changes in between are the business of ConcurrentOpens and ConcurrentRounds. What each `session.Open()` does, and the stop channel at each look, are arbitrary parameters; back-off times are left out.
- ConcurrentOpens.CapExactly: a session that was replaced or removed stays open until something closes it, as in the program, and may be opened on by callers that have it in their heaps; removing closed sessions after a failed open is any sequence of removals; the failure of `session.Open()` is arbitrary, and back-off times are left out.
- ConcurrentAlone.CallAlone: `session.Open()` succeeds in it; what failures do is the business of ConnectionGroup.Group.OpenStream and ConcurrentRounds.OutcomeMeans.
- ConcurrentRounds.CapacityErrorExactly: speaks of sessions a round could use, so of the primary only in rounds that build a heap with it.
- PoolClosing.ClosedKeepsExactly: what the watchers of a session left behind do after the stop is any removal, at any time or never.
- FrameWriterWire.WireOfRun: how many bytes a failed write leaves is an arbitrary parameter; what a reader makes of bytes behind such a remainder is stated only up to it (FrameWriterWire.ReadBeforeFailure).
- FrameWriterClosing.CloseFinishesSoon: with write calls under way the panic may come first, as FrameWriterClosing.ClosePanicsExactly says.
- BalancedScheduling.Balanced: assumes opens that succeed and no closes, as any statement about even shares must; BalancedScheduling.OpenUpTo carries the same assumption.
- SessionHeap.Heap.Drain: `heapIdx` bookkeeping and `Push`, which nothing calls, are left out; entries are values, not pointers.
- WebSocketConn.Conn.Read: the read mutex, setting deadlines and pings are left out; a connection error inside a message is a broken last message, which never counts as a clean end of file; otherwise how the transport ends (end of file, time-out, error) is a parameter of the connection.
- ResourceLedger.LedgerBalances: generated names and tunnel IDs are fresh, stale tunnels are not swept (a sweep would drop a live connection's name), and a connection is closed by its own `Handle` or after it; a listener shut down in the middle of a registration is not modelled. Sweeping of stale groups is.
- ResourceLedger.ReturnedExactlyOnce: says nothing of the order in which other connections see the returns; the port is in fact free before its `tcp-<port>` name is.
- ConnectionLifecycle.LifecycleManager.Close: closing the socket, the frame writer, the proxy and the session, and the stop channel, are left out; only what is returned to the shared maps is modelled.
- ConnectionLifecycle.HandleConnection: the part between the registration and the end of the connection (proxying, heartbeats, the frame writer) changes none of the three maps and is left out.
- ClientPool.Pool.RemoveIdleSessions: a session that becomes busy after the snapshot may still be removed, as in the code; idle means idle at the snapshot.
- SessionScaler.PoolStaysInBounds: runs end when the client closes, which losing the primary session does.
- SessionScaler.ScaleDownDoesNotThrash: loads are exact rationals, not 64-bit floats.
- BufferOwnership.BuffersOwnedOnce: whether a frame's payload is still read after its release is not tracked, only ownership of the buffer; contents of buffers are not modelled there.
- Pipe.PipeBuffer: half-closing, deadlines and the two directions running side by side are left out; the copy runs over a finite script and is `Running` if the script ends first.
- Integer widths: counters are mathematical integers; the frame length is checked against 1 MiB before it is cut to 32 bits, so nothing wraps there.
- Go strings are byte strings, here sequences of characters; names, hosts and prefixes that matter are ASCII.
