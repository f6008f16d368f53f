# Verified models of gbalancer

A balancer for database connections: a scheduler hands client connections to backends, over plain
TCP or over streams of SPDY tunnels, and probes the backends with a MySQL client.  The project
models the three stateful parts of it and proves what they are relied on for.

**The native scheduler** (`engine/native`).  `SchedulerSpec` is the event loop as a transition
system: a step is one branch of the select statement or the return of a forwarding goroutine.
`SchedulerProperties` and `SchedulerChoice` prove what holds over its runs, and `SchedulerWitnesses`
holds three runs of it; `SchedulerDrains` is about the order in which waiting requests are served.
`TunnelRepair` is the repair protocol of the tunnel slots, one step an atomic action of a forwarder, a
session creator or the scheduler, and `TunnelClosings` the closing of the connections in them.
`Backends`, `Pools` and `Scheduling` are the objects with their fields; every method is proved to take
a step of the two systems, down to the loops of the binary heap in `HeapOrder`.

**SPDY** (`spdystream` and the framer).  `FrameQueues` is the priority queue, a heap proved to be a
sorted list; `FrameOrder` the reader with its five queues and workers, `FrameRoutes` where it puts a
frame; `StreamChannels` the channels and locks of a stream under arbitrary interleavings;
`ConnectionIds`, `ConnectionPings` and `Connections` the stream ids, ping ids, ping channels and
GOAWAY; `StreamReads` the reading side of a stream.  `SpdyFrames` are the nine kinds of frames of SPDY
Draft 3 with their writers and readers, header compression off, `SpdyRoundTrip` that they undo each
other, `SpdyLayouts` where every field stands in numbers, `SpdyDuplicates` what becomes of repeated
headers, `Framers` the methods that emit and consume field by field.

**The MySQL driver** (`go-sql-driver/mysql`).  `MysqlBuffers` is the read buffer; `MysqlPackets` the
packets that a long body is split into in place; `LongData` long parameters; `Dsn` the data source
name; `OldPassword` the password scramble before MySQL 4.1.  `Wrappers` and `ByteStrings` are shared.

Where the code does less than one would expect, it is modelled as it is:

- `run` never clears the error of a retried request, so a request served after a failed dial is
  dispatched again (`SchedulerChoice.ServedIsOver` says exactly when).
- A pending request waits until a session of a backend absent from the map arrives
  (`SchedulerProperties.PendingKeptIff`): for ever without tunnels, and with them as long as the
  heap is refilled by status messages only, while later requests overtake it.
- Failover with a shuffled list, its default, does not stick to one backend: all weights are 0 and
  the heap lets two backends take turns (`SchedulerChoice.FailoverSticksIff`,
  `Scheduling.Scheduler.Dispatch`); a drain may then refuse a request and serve a later one
  (`SchedulerDrains.SessionOrderIff`).
- A tunnel session that comes late brings back a backend that a status message removed: the map
  stays within the announced addresses exactly when no session names another one
  (`SchedulerProperties.AnnouncedIff`).
- More than one frame may end this side of a stream: `Refuse`, `Cancel`, `SendReply` and `SendHeader`
  write theirs behind other guards than finishLock or none (`StreamChannels.OneClosingFrameIff`).
- A peer may open a stream under an id of the connection's own parity
  (`ConnectionIds.AcceptedCollidesIff`).
- A repeated header is refused only when its stored name is in small letters
  (`SpdyDuplicates.BlockAcceptedIff`).
- Handling a stream's frames in order of arrival depends on the priority of its opening frame: the
  comment at connection.go:144-145 promises it unconditionally (`FrameOrder.StreamOrder`).
- `Ping` reads its id outside the lock, so two pings may share one, and then only the later one is
  woken; an id that is echoed twice before its call returns has its channel closed twice
  (`ConnectionPings.ClosedOnceIff`).
- A MySQL body whose length is a multiple of 0xffffff ends in an empty packet, which the reader
  refuses.
- A long parameter whose commands have to be split is numbered from the running sequence number,
  not from 0 (`LongData.ArgumentArrivesIff`).

## Model

| member | source | states |
|---|---|---|
| SchedulerProperties.RunKeeps | engine/native/scheduler.go:66-282 | over every run from the empty scheduler, whatever the interleaving of branches and returning forwarders: placement, ranks, counters and separation hold, and the requests answered for are exactly those submitted |
| SchedulerProperties.RequestConservation | engine/native/scheduler.go:142-261 | a submitted request is in exactly one of pending, in flight, refused, completed; any other request is in none; nothing is pending twice |
| SchedulerProperties.CounterAccounting | engine/native/scheduler.go:166-261 | the counter of every backend ever created, in the map or not, is the number of requests in flight on it, never below 0 nor above 4096 |
| SchedulerProperties.LaunchAccounting | engine/native/scheduler.go:142-261 | over every run a backend has been handed exactly as many requests as are flying on it and have come back from it |
| SchedulerProperties.StatusReconciles | engine/native/scheduler.go:74-124 | after a status message the map and the heap hold the same backends; without tunnels the addresses are exactly those announced; survivors keep object and counter; no request moves; for any order of traversal |
| SchedulerProperties.KeysBetweenStatuses | engine/native/scheduler.go:66-154 | between two status messages the addresses of the map only grow, and by exactly those that sessions name |
| SchedulerProperties.AnnouncedIff | engine/native/scheduler.go:74-148 | after a status message the addresses of the map stay among those announced if and only if every session that arrives before the next one names one of them |
| SchedulerProperties.LateSessionRestores | engine/native/scheduler.go:74-140 | a backend that a status message removed, and that no message or session has named since, is put back into map and heap by its late session, over every such run |
| SchedulerWitnesses.GoneBackendReturns | engine/native/scheduler.go:74-140 | a run with two tunnels in which a backend announced to be gone is back in map and heap after its second session |
| SchedulerProperties.DrainHandlesEach | engine/native/scheduler.go:138-147 | the drain leaves no request pending: each one flies or is refused, exactly once, and no other request is disturbed |
| SchedulerDrains.SessionOrderIff | engine/native/scheduler.go:133-180 | in every configuration the session of an absent backend drains the list in order of arrival (some first requests fly, all later ones are refused), for every choice the heap has, if and only if not both: weights are compared, and two backends of the heap share the least one, the list being long enough to fill one of them with two requests to spare and the other not full |
| SchedulerDrains.DrainOrderIff | engine/native/scheduler.go:142-180 | the same for any list dispatched on any heap of known backends |
| SchedulerDrains.DrainIsFirstComeFirstServed | engine/native/scheduler.go:142-180 | without such a pair, the number of requests that fly before all others are refused |
| SchedulerDrains.NeverJumps | engine/native/scheduler.go:107-114 | there is no such pair unless weights are compared and the list is shuffled, what failover does by default |
| SchedulerDrains.LaterFliesIff | engine/native/scheduler.go:157-180 | after a refusal a later request can still fly if and only if a backend of least key is not full |
| SchedulerWitnesses.DrainJumps | engine/native/scheduler.go:66-261 | a run of failover with a shuffled list in which the drain refuses a request on a full backend and lets a later one fly on another |
| SchedulerProperties.PendingKeptIff | engine/native/scheduler.go:66-154 | for every configuration and step: what is pending stays, in its order, if and only if the step is not the session of a backend absent from the map; that one empties the list |
| SchedulerProperties.PendingUntilDrained | engine/native/scheduler.go:66-154 | over every run: the pending requests stay pending if and only if no step of it is such a session |
| SchedulerProperties.PendingStaysWithoutTunnels | engine/native/scheduler.go:133-151 | without tunnels there is no such session: nothing ever takes a request off the pending list |
| SchedulerWitnesses.LaterRequestOvertakes | engine/native/scheduler.go:66-180 | a run with tunnels in which a request whose dial failed still waits although a later one flies from a heap that is not empty and a session has arrived since |
| SchedulerSpec.StepKeeps | engine/native/scheduler.go:66-154 | each branch keeps the invariant, and only a submission adds a request to those answered for |
| SchedulerSpec.FinishKeeps | engine/native/scheduler.go:233-261 | finishing a request, with or without a retry, keeps the invariant and loses no request |
| SchedulerSpec.DrainKeeps | engine/native/scheduler.go:142-147 | dispatching a whole list on a non-empty heap keeps the invariant and the heap, and every request stays accounted for |
| SchedulerChoice.LeastConnections | engine/native/scheduler.go:157-180 | without leastweight a request goes to a backend of the heap with the fewest forwarders, and is refused exactly when all of them are full |
| SchedulerChoice.JobsBalance | engine/native/scheduler.go:157-180 | a run of requests never widens the spread of the loads beyond its value before or 1 |
| SchedulerChoice.FailoverPicksEldest | engine/native/scheduler.go:157-180 | with leastweight and no shuffle a request goes to the backend of the heap created first, and is refused exactly when that one is full |
| SchedulerChoice.FailoverPicksLeast | engine/native/scheduler.go:157-180 | with leastweight, shuffled or not, a request goes to a backend of the heap of least weight, and is refused exactly when that one is full |
| SchedulerChoice.ShuffledOffersAny | engine/native/scheduler.go:107-114 | with leastweight and shuffle, the default of failover, every backend of the heap is least |
| SchedulerChoice.FailoverWeightsDiffer | engine/native/scheduler.go:107-114 | without shuffle the weights of all backends ever created are pairwise different |
| SchedulerChoice.FailoverSticks | engine/native/scheduler.go:157-261 | with leastweight, shuffled or not, and one backend of least weight: as long as nothing joins, leaves or fails, every request of a run is offered to it |
| SchedulerChoice.FailoverSticksIff | engine/native/scheduler.go:157-261 | all such runs stick to one backend if and only if it is the only one of least weight |
| SchedulerChoice.ShuffledOffersOneIff | engine/native/scheduler.go:107-114 | shuffled, there is one backend of least weight if and only if it is alone in the heap |
| SchedulerChoice.ServedIsOver | engine/native/scheduler.go:207-261 | a served request is completed if and only if its error did not say dial before the retry or a copy failed; its backend keeps its place in the heap if and only if no error is left |
| SchedulerChoice.ServedRequestReturns | engine/native/scheduler.go:207-261 | a run in which a request that was served after one failed dial is dispatched again and both backends end up outside the heap |
| HeapOrder.UpStep | engine/native/pool.go:25-30 | one exchange of an upward sift moves the only place that may be out of order to the parent |
| HeapOrder.DownStep | engine/native/pool.go:25-30 | one exchange of a downward sift with a least child moves the only place that may be out of order to that child |
| HeapOrder.RootIsLeast | engine/native/pool.go:17-23 | the root of a heap is least |
| HeapOrder.TurnTwice | engine/native/pool.go:25-48 | popping the first and pushing it back makes it change places with the last, and twice restores the order: two backends take turns |
| Pools.Pool.Less | engine/native/pool.go:17-23 | compares the keys the heap is ordered by: weights, or numbers of forwarders |
| Pools.Pool.Swap | engine/native/pool.go:25-30 | exchanges two backends and keeps every back-index equal to its position |
| Pools.Pool.Push | engine/native/pool.go:32-40 | appends a backend under its new index |
| Pools.Pool.Pop | engine/native/pool.go:42-48 | removes the last backend and marks it -1 |
| Pools.Pool.HeapPush | engine/native/scheduler.go:174-176 | the heap stays one, its indices right, and gains exactly the backend pushed, at its end when all keys are the same |
| Pools.Pool.HeapPop | engine/native/scheduler.go:166 | takes a backend of least key and leaves a heap of the others; when all keys are the same it takes the first, and the last comes in its place |
| Pools.Pool.HeapRemove | engine/native/scheduler.go:238-239 | takes the backend at a given index, marks it -1 and leaves a heap of the others |
| Scheduling.Scheduler.constructor | engine/native/scheduler.go:40-52 | a new scheduler is in the initial state of both systems, where all that the branches keep holds |
| Scheduling.Scheduler.Placement | engine/native/scheduler.go:66-282 | what every branch keeps: a heap under Less, index equal to position inside, -1 outside for a backend of the map, every pooled backend the map's entry for its own address, and the count of every backend the number of requests handed to it |
| Scheduling.Scheduler.Job | engine/native/scheduler.go:149-150 | the job branch is a step of the system, with a least backend picked; only a request that is launched raises a count, that of its backend by 1, and starts sessions, for exactly the slots that are due |
| Scheduling.Scheduler.Dispatch | engine/native/scheduler.go:157-180 | the request is parked, refused or handed to a least backend, whose counter rises by one while it is out of the heap and whose connections are then checked: its count rises by 1 and sessions start for exactly those of its slots with five seconds elapsed, a connection up and not being replaced, and a next stream id above 0x7fefffff; a parked or refused request changes no count and starts none; when weights are compared and all the same, that is the first of the heap, and it changes places with the last |
| Scheduling.Scheduler.ShuffledAlike | engine/native/scheduler.go:107-114 | with failover and a shuffled list that is always so: every weight is 0 |
| Scheduling.Scheduler.Return | engine/native/scheduler.go:207-231 | the forwarding goroutine overwrites the error only without a connection or after a failed copy, and puts the request on the done channel |
| Scheduling.Scheduler.Finish | engine/native/scheduler.go:233-261 | the done branch is a step of the system: counter lowered, backend kept out after an error, request retried after a failed dial, with the check of a launch if it is launched and only then |
| Scheduling.Scheduler.Status | engine/native/scheduler.go:74-124 | the status branch, its two loops over maps in any order, is a step of the system |
| Scheduling.Scheduler.Sweep | engine/native/scheduler.go:79-91 | the first loop removes what is not announced, brings back what an error took out and leaves the new addresses |
| Scheduling.Scheduler.Fail | engine/native/scheduler.go:126-132 | the fail branch starts one session creation unless the slot is being switched |
| Scheduling.Scheduler.NewTunnel | engine/native/scheduler.go:133-148 | the new-tunnel branch installs the connection and, for a backend that is not in the map, adds it and drains the pending list, each launch of the drain with its check, one after the other |
| Scheduling.Scheduler.Drain | engine/native/scheduler.go:142-147 | the loop dispatches the pending requests in order and empties the list |
| Scheduling.Scheduler.AddBackend | engine/native/scheduler.go:263-268 | enters a backend in map and heap |
| Scheduling.Scheduler.RemoveBackend | engine/native/scheduler.go:270-282 | takes an address out of map and heap; an unknown one changes nothing |
| Scheduling.Scheduler.SessionReady | engine/native/spdy.go:75-88 | a creator sends its session to the scheduler |
| Scheduling.Scheduler.Swap | engine/native/backend.go:116-129 | the forwarder's compare-and-swap succeeds exactly when the slot still holds the connection it loaded |
| TunnelRepair.RepairUnderWay | engine/native/backend.go:55-132 | in every interleaving a slot has at most one session creation outstanding, and an empty slot has one or a failure report on its way |
| TunnelClosings.ClosingBalance | engine/native/backend.go:55-132 | in every interleaving, a connection has been closed as often as it was put into a slot and is in none of them any more |
| TunnelClosings.HeldBalance | engine/native/backend.go:99-132 | over every run a forwarder's loads of a connection are those it still holds and those it has left, with a stream or with its compare-and-swap |
| TunnelClosings.ClosedExactlyOnce | engine/native/backend.go:55-132 | when every session brings its own connection: one that is in a slot is in one and open, one that has left has been closed exactly once |
| TunnelRepair.SlotKeeps | engine/native/scheduler.go:117-136 | one slot through one step of any party keeps the repair invariant, its link with the switching flag included |
| Backends.Backend.SpdyCheckStreamId | engine/native/backend.go:69-95 | starts a session for exactly the slots whose connection is up, not being replaced and nearly out of ids, and counts the call |
| Backends.Backend.LeftAloneHasIds | engine/native/const.go:11 | a connection that the check leaves alone has more than 2^19 stream ids left |
| Backends.Backend.ForwarderNewConnection | engine/native/backend.go:99-150 | whatever the other goroutines do to the slots in between: in round i the slot (count + i) modulo tunnels is probed, the first connection loaded that opens a stream wins, at once when it is that of slot count modulo tunnels, and of the others exactly those still in their slot at the compare-and-swap are cleared, closed and reported, in that order; a plain dial remains when none opens |
| Backends.Backend.UndisturbedProbes | engine/native/backend.go:99-150 | without interference the first slot that opens a stream wins, and exactly the broken ones before it are reported and cleared |
| Backends.Backend.ProbesFromCount | engine/native/backend.go:107-116 | as long as the slot of each round is as it was, round i succeeds exactly when slot (count + i) modulo tunnels opens a stream |
| Backends.Backend.EverySlotHasATurn | engine/native/backend.go:107-110 | among any tunnels consecutive counts each slot is the first to be probed |
| Backends.Backend.Apart | engine/native/backend.go:107-110 | and only once |
| Backends.Backend.SwitchSpdyConn | engine/native/backend.go:55-62 | installs a connection and its address, ends the switching and closes the connection that was there |
| FrameQueues.PriorityFrameQueue.Push | Godeps/_workspace/src/github.com/docker/spdystream/priority.go:62-76 | a full queue waits unchanged; otherwise the frame joins the sorted list behind all of its own priority |
| FrameQueues.PriorityFrameQueue.Pop | Godeps/_workspace/src/github.com/docker/spdystream/priority.go:78-90 | takes the head of the sorted list; nil only when drained and empty |
| FrameQueues.PriorityFrameQueue.Less | Godeps/_workspace/src/github.com/docker/spdystream/priority.go:21-26 | orders by priority, then by insertion id, as the rank does |
| FrameQueues.InsertSorted | Godeps/_workspace/src/github.com/docker/spdystream/priority.go:62-76 | the list stays sorted by priority and insertion id and gains exactly the new frame |
| FrameQueues.InsertIsFifo | Godeps/_workspace/src/github.com/docker/spdystream/priority.go:62-76 | the new frame goes to the end of its own priority and leaves the other priorities alone |
| FrameQueues.OvertakesIff | Godeps/_workspace/src/github.com/docker/spdystream/priority.go:21-26 | a new frame goes before a waiting one exactly when its priority number is smaller |
| FrameQueues.HeadIsFirst | Godeps/_workspace/src/github.com/docker/spdystream/priority.go:78-90 | the head is the oldest frame of the smallest priority number present |
| FrameQueues.RootIsHead | Godeps/_workspace/src/github.com/docker/spdystream/priority.go:87 | the root of the heap is the head of the list |
| FrameOrder.RunKeeps | Godeps/_workspace/src/github.com/docker/spdystream/connection.go:143-248 | in every run the frames pushed on a queue are those handled and those waiting, each priority of a queue is first-in first-out, and a queue never exceeds its size |
| FrameOrder.StreamOrder | Godeps/_workspace/src/github.com/docker/spdystream/connection.go:143-256 | the frames of a stream are handled in order of arrival if and only if, over the whole run, none was pushed while one of larger priority number waited |
| FrameOrder.NonDecreasingInOrder | Godeps/_workspace/src/github.com/docker/spdystream/connection.go:169-207 | priorities that do not decrease keep the order of a stream |
| FrameOrder.PriorityZeroInOrder | Godeps/_workspace/src/github.com/docker/spdystream/connection.go:250-282 | a stream opened with priority 0 and left alone keeps its order, stray frames and removal included |
| FrameOrder.OpeningOvertaken | Godeps/_workspace/src/github.com/docker/spdystream/connection.go:171-187 | for every other priority there is a run in which the data of a stream comes before the frame that opens it |
| FrameOrder.PushOrder | Godeps/_workspace/src/github.com/docker/spdystream/connection.go:207 | one push keeps the order of its stream exactly when it overtakes no frame of it |
| FrameRoutes.ReadIsRouted | Godeps/_workspace/src/github.com/docker/spdystream/connection.go:168-207 | over every run: PING and GOAWAY get priority 0, an unknown frame 7, and the k-th of them goes to queue k modulo 5; a frame of a stream goes to queue id modulo 5 with the priority of its stream, 7 without one, a SYN_STREAM with its own unless it is refused |
| FrameRoutes.ControlGoesFirst | Godeps/_workspace/src/github.com/docker/spdystream/connection.go:189-207 | PING and GOAWAY are pushed in front of every waiting frame but those of priority 0 |
| FrameRoutes.UnknownGoesLast | Godeps/_workspace/src/github.com/docker/spdystream/connection.go:202-207 | an unknown frame is pushed behind every waiting frame of priority 7 or less |
| FrameRoutes.PushedWhere | Godeps/_workspace/src/github.com/docker/spdystream/connection.go:207 | a pushed frame goes behind all waiting frames of its priority or a smaller number and in front of all others, and no other queue changes |
| FrameRoutes.PushedOnce | Godeps/_workspace/src/github.com/docker/spdystream/connection.go:155-207 | over every run each frame that is read, but for refused SYN_STREAM frames, is pushed once |
| FrameRoutes.PriorityIsTheLast | Godeps/_workspace/src/github.com/docker/spdystream/connection.go:250-256 | the priority that a stream's frames get is the one given by the last step that concerned it: as it was set, 0 after creation, none after removal |
| FrameRoutes.GoneAwayIff | Godeps/_workspace/src/github.com/docker/spdystream/connection.go:442-462 | streams are refused for good exactly when the connection has been left at some step of the run |
| FrameRoutes.FiftyWait | Godeps/_workspace/src/github.com/docker/spdystream/connection.go:22-23 | a queue takes a frame as long as fewer than 50 wait in it |
| ConnectionIds.KthStreamId | Godeps/_workspace/src/github.com/docker/spdystream/connection.go:741-750 | the k-th call returns the k-th id of the side's parity, at most 0x7fffffff, and 0 for ever after the last |
| ConnectionIds.StreamIdsIncrease | Godeps/_workspace/src/github.com/docker/spdystream/connection.go:741-750 | ids handed out strictly increase until they run out |
| ConnectionIds.StreamIdsAre | Godeps/_workspace/src/github.com/docker/spdystream/connection.go:741-750 | a client hands out 1, 3, 5 and so on, a server 2, 4, 6, up to 2^31 - 1, then 0 |
| ConnectionIds.PingIdsAre | Godeps/_workspace/src/github.com/docker/spdystream/connection.go:107-115 | a client's pings are 1, 3, 5 and so on, a server's 2, 4, 6, each 2^30 of them |
| ConnectionIds.EchoesIff | Godeps/_workspace/src/github.com/docker/spdystream/connection.go:429-434 | a server echoes exactly the odd pings, a client the even ones |
| ConnectionIds.AcceptedIff | Godeps/_workspace/src/github.com/docker/spdystream/connection.go:287-304 | over every run a stream of the peer is accepted if and only if nobody has gone away and its id is at least 2 above the last one accepted, or the first the peer can have, and below 2^31 |
| ConnectionIds.PingIdIs | Godeps/_workspace/src/github.com/docker/spdystream/connection.go:107-115 | the ping id after any number of advances, through its wrap |
| ConnectionIds.PingIdsCollide | Godeps/_workspace/src/github.com/docker/spdystream/connection.go:107-115 | two pings carry the same id if and only if a whole number of cycles of 2^30 advances lies between them |
| ConnectionIds.ConcurrentPingsShareAnId | Godeps/_workspace/src/github.com/docker/spdystream/connection.go:108-115 | the id is read outside its lock: a run in which two pings share one |
| ConnectionIds.EchoesTheOthersPings | Godeps/_workspace/src/github.com/docker/spdystream/connection.go:429-440 | each end echoes every ping of the other and none of its own, and ping ids are never zero |
| ConnectionPings.ClosedOnceIff | Godeps/_workspace/src/github.com/docker/spdystream/connection.go:107-140 | over every run no channel of a ping is closed twice, which panics, if and only if no id is echoed twice while the entry of the same call is there |
| ConnectionPings.RunHolds | Godeps/_workspace/src/github.com/docker/spdystream/connection.go:117-118 | the channel of a call is under its own id, exactly until the id is deleted or used again, and each echo in between closes it |
| ConnectionPings.TwoEchoes | Godeps/_workspace/src/github.com/docker/spdystream/connection.go:429-440 | a run in which a second echo before the deferred delete closes a channel twice |
| ConnectionPings.ReplacedSleeps | Godeps/_workspace/src/github.com/docker/spdystream/connection.go:107-118 | when two calls share an id the channel of the first is not closed any more once the second has entered its own |
| ConnectionIds.AcceptedIncrease | Godeps/_workspace/src/github.com/docker/spdystream/connection.go:287-304 | accepted peer stream ids strictly increase |
| ConnectionIds.AcceptedCollidesIff | Godeps/_workspace/src/github.com/docker/spdystream/connection.go:741-758 | over every run an accepted peer id is that of a local stream if and only if it has the connection's own parity and lies below the next local id |
| ConnectionIds.AcceptedMayCollide | Godeps/_workspace/src/github.com/docker/spdystream/connection.go:752-758 | a run in which a client that opened stream 3 accepts the peer's stream 3 |
| ConnectionIds.EndsNeverShareAnId | Godeps/_workspace/src/github.com/docker/spdystream/connection.go:741-750 | the ids that the two ends of a connection hand out are never the same |
| ConnectionIds.GoAwayIsLast | Godeps/_workspace/src/github.com/docker/spdystream/connection.go:572-601 | a GOAWAY carries the last id accepted or 0; there is at most one, and nothing is accepted after it or after the peer's |
| ConnectionIds.FirstCloseSpeaks | Godeps/_workspace/src/github.com/docker/spdystream/connection.go:572-601 | the first close of a connection nobody has ended does send one |
| Connections.Connection.GetNextStreamId | Godeps/_workspace/src/github.com/docker/spdystream/connection.go:741-750 | a step of the id system |
| Connections.Connection.CheckStreamFrame | Godeps/_workspace/src/github.com/docker/spdystream/connection.go:287-304 | a step of the id system; a refused id of a live connection is answered with a reset |
| Connections.Connection.Classify | Godeps/_workspace/src/github.com/docker/spdystream/connection.go:169-206 | the reader's choice of priority and queue for every kind of frame is a step of the frame system |
| Connections.Connection.AdvancePingId | Godeps/_workspace/src/github.com/docker/spdystream/connection.go:109-115 | a step of the id system |
| Connections.Connection.RegisterPing | Godeps/_workspace/src/github.com/docker/spdystream/connection.go:117-118 | a new channel is entered under the id read |
| Connections.Connection.HandlePingFrame | Godeps/_workspace/src/github.com/docker/spdystream/connection.go:429-440 | a ping of the other parity is sent back; an echo closes the channel entered under its id, closed before or not |
| Connections.Connection.HandleGoAwayFrame | Godeps/_workspace/src/github.com/docker/spdystream/connection.go:442-463 | the peer's GOAWAY is a step of the id system; only the first one shuts down and sends the last stream, or nil, to whoever asked for it |
| Connections.Connection.Close | Godeps/_workspace/src/github.com/docker/spdystream/connection.go:572-601 | a close is a step of the id system, with the id its GOAWAY carries |
| StreamChannels.ChannelDiscipline | Godeps/_workspace/src/github.com/docker/spdystream/connection.go:317-483 | in every interleaving of peer frames and local calls, lock by lock: dataChan and closeChan are closed at most once and together, nothing is sent on a closed channel, and startChan is closed at most once |
| StreamChannels.AskedIsDone | Godeps/_workspace/src/github.com/docker/spdystream/connection.go:317-483 | over every run: when the worker is done with the peer's FIN both channels have been closed exactly once and a finished stream is off the connection; after its reset the stream is finished, answered and off the connection; Close, Reset and a last WriteData leave this side finished, Close the channels closed and a stream that was closed already off the connection; a SendReply that could be written leaves the stream answered |
| StreamChannels.ClosedIff | Godeps/_workspace/src/github.com/docker/spdystream/connection.go:341-483 | once every thread is done the channels are closed if and only if the stream began so or a FIN or reset of the peer, a Close or a Reset asked for it |
| StreamChannels.StartedIff | Godeps/_workspace/src/github.com/docker/spdystream/connection.go:317-367 | startChan has been closed exactly as often as a first reply or a reset before any has been handled, which is at most once |
| StreamChannels.DataIsDelivered | Godeps/_workspace/src/github.com/docker/spdystream/connection.go:396-427 | a data frame for a stream that is there and answered is delivered exactly once if the stream is open at the worker's test, and not otherwise |
| StreamChannels.DataBalance | Godeps/_workspace/src/github.com/docker/spdystream/connection.go:396-427 | over every run such frames are delivered, have found the stream closed, or are being handled, and no others are |
| StreamChannels.DroppedIff | Godeps/_workspace/src/github.com/docker/spdystream/connection.go:317-427 | which frames and calls are dropped at once: those for a stream that is not there, not answered, or answered already |
| StreamChannels.RemovedIff | Godeps/_workspace/src/github.com/docker/spdystream/connection.go:341-483 | a stream is on its connection until a reset of either side, a Close of a closed stream, or the peer's FIN on a finished one |
| StreamChannels.NoEndBeforeReply | Godeps/_workspace/src/github.com/docker/spdystream/stream.go:39-56 | Close and a last WriteData end a stream that the peer opened only after it has been answered |
| StreamChannels.RunKeeps | Godeps/_workspace/src/github.com/docker/spdystream/stream.go:155-261 | mutual exclusion, the two channels, startChan, finishLock and replyCond, kept over every run |
| StreamChannels.ClosedTogetherKept | Godeps/_workspace/src/github.com/docker/spdystream/connection.go:465-475 | every close site keeps the two channels together, and a sender that saw the stream open still finds it open |
| StreamChannels.StartOnceKept | Godeps/_workspace/src/github.com/docker/spdystream/connection.go:325-336 | the test of replied and its assignment, though two steps, let the worker close startChan once |
| StreamChannels.LastOnceKept | Godeps/_workspace/src/github.com/docker/spdystream/stream.go:172-199 | of the callers that take finishLock at most one writes a frame that closes the stream |
| StreamChannels.ReplyOnceKept | Godeps/_workspace/src/github.com/docker/spdystream/stream.go:221-242 | replyCond lets at most one reply with FIN out |
| StreamChannels.ClosingFrames | Godeps/_workspace/src/github.com/docker/spdystream/stream.go:155-261 | over every run the frames that end this side are the opening one with FIN, those of the takers of finishLock, of Refuse, of Cancel, the replies and the headers with FIN; only the first two together and the replies are at most one |
| StreamChannels.ClosingBalance | Godeps/_workspace/src/github.com/docker/spdystream/stream.go:155-261 | at every moment of every run: the guards passed (Cancel and headers with FIN have none, Refuse tests replied, the takers of finishLock test finished, a reply with FIN tests replied), with the opening frame, are the closing frames written, those due and the failed replies |
| StreamChannels.OneClosingFrameIff | Godeps/_workspace/src/github.com/docker/spdystream/stream.go:155-261 | once every call has returned, at most one frame has ended this side if and only if at most one such guard was passed, the opening with FIN counted and failed replies not |
| StreamChannels.RefuseThenClose | Godeps/_workspace/src/github.com/docker/spdystream/stream.go:155-254 | a run that refuses a stream and closes it: a reset and a data frame with FIN |
| StreamChannels.CloseThenCancel | Godeps/_workspace/src/github.com/docker/spdystream/stream.go:155-258 | a run that closes a stream and cancels it: a data frame with FIN and a reset |
| StreamReads.ReadsAreTheFrames | Godeps/_workspace/src/github.com/docker/spdystream/stream.go:75-97 | whatever the sizes of the buffers, reads deliver the bytes of the data frames in order, none lost or repeated |
| StreamReads.EndIsTheEnd | Godeps/_workspace/src/github.com/docker/spdystream/stream.go:78-88 | a read reports the end of the stream exactly when every byte has been delivered |
| StreamReads.ReadFills | Godeps/_workspace/src/github.com/docker/spdystream/stream.go:78-97 | a read delivers as much of what is unread, or of the next frame, as the buffer holds |
| StreamReads.AllIsDelivered | Godeps/_workspace/src/github.com/docker/spdystream/stream.go:78-97 | reads into buffers that are not empty deliver every byte once there are as many of them as bytes |
| StreamReads.Reader.Read | Godeps/_workspace/src/github.com/docker/spdystream/stream.go:78-97 | fills the caller's buffer from the unread rest or a new frame and keeps what does not fit |
| SpdyRoundTrip.RoundTripIff | Godeps/_workspace/src/code.google.com/p/go.net/spdy/read.go:146-348 | a frame of any of the nine kinds that its writer accepted is read back, with whatever follows it left on the input, if and only if it keeps to 24-bit lengths and setting ids, a 3-bit priority, canonical header names that are not refused, and non-empty lists of values without NUL |
| SpdyRoundTrip.ListRoundTrip | Godeps/_workspace/src/code.google.com/p/go.net/spdy/write.go:14-318 | frames written one after another are read back one after another, and nothing else is consumed |
| SpdyRoundTrip.ReadThenWrite | Godeps/_workspace/src/code.google.com/p/go.net/spdy/read.go:146-348 | whatever bytes came in, a frame that was read can be written again in any order of its headers, and is read back as written unless its length has outgrown 24 bits |
| SpdyRoundTrip.FieldsBackIff | Godeps/_workspace/src/code.google.com/p/go.net/spdy/read.go:177-217 | a header map comes back exactly when its names are in stored form and its values survive the joining, for any order of writing |
| SpdyRoundTrip.SplitJoinIff | Godeps/_workspace/src/code.google.com/p/go.net/spdy/read.go:208-211 | joining values with NUL and splitting gives them back exactly when there is one and none holds a NUL |
| SpdyRoundTrip.ProperCollected | Godeps/_workspace/src/code.google.com/p/go.net/spdy/read.go:198-211 | names in stored form never collide on the way back |
| SpdyDuplicates.BlockAcceptedIff | Godeps/_workspace/src/code.google.com/p/go.net/spdy/read.go:177-217 | a header block is accepted if and only if it is complete, its names are in small letters, and no name whose words all begin with something but a letter is there twice |
| SpdyDuplicates.EntryRead | Godeps/_workspace/src/code.google.com/p/go.net/spdy/read.go:185-211 | one header: its stored name, and the complaint it leaves, a duplicate before a capital before an earlier one |
| SpdyDuplicates.DuplicatesMerge | Godeps/_workspace/src/code.google.com/p/go.net/spdy/read.go:198-211 | any other name may be there twice: its values are put together |
| SpdyRoundTrip.LengthIsHonest | Godeps/_workspace/src/code.google.com/p/go.net/spdy/write.go:22-296 | the length stamped in the header of every control frame, which the readers of most kinds ignore, is the number of bytes behind the header |
| SpdyRoundTrip.ControlHeaderOnTheWire | Godeps/_workspace/src/code.google.com/p/go.net/spdy/write.go:141-153 | control bit, version, type, flags and 24-bit length stand in network byte order in front of every control frame (SPDY Draft 3, section 2.2.1) |
| SpdyLayouts.EveryControlHead | Godeps/_workspace/src/code.google.com/p/go.net/spdy/write.go:22-296 | 80 03, then the kind, 1, 2, 3, 4, 6, 7, 8 or 9 by constructor, the flags and the number of bytes that follow, in front of every control frame (SPDY Draft 3, section 2.2.1) |
| SpdyLayouts.WordFrames | Godeps/_workspace/src/code.google.com/p/go.net/spdy/write.go:22-135 | ids, statuses and deltas of PING, RST_STREAM, GOAWAY and WINDOW_UPDATE at bytes 8 and 12 in network byte order |
| SpdyLayouts.SynStreamOnTheWire | Godeps/_workspace/src/code.google.com/p/go.net/spdy/write.go:184-226 | id at byte 8, associated id at 12, priority in the upper three bits of 16, slot at 17, number of headers at 18 |
| SpdyLayouts.IdFieldsOnTheWire | Godeps/_workspace/src/code.google.com/p/go.net/spdy/write.go:228-296 | id and number of headers of SYN_REPLY and HEADERS at bytes 8 and 12 |
| SpdyLayouts.EntryOnTheWire | Godeps/_workspace/src/code.google.com/p/go.net/spdy/write.go:155-182 | a header: 32-bit length, name in small letters, 32-bit length, values with a zero byte between each two |
| SpdyLayouts.SettingsOnTheWire | Godeps/_workspace/src/code.google.com/p/go.net/spdy/write.go:47-69 | the number of settings at byte 8, and for each a byte of flags, a 24-bit id and a value |
| SpdyLayouts.DataOnTheWire | Godeps/_workspace/src/code.google.com/p/go.net/spdy/write.go:298-318 | id, flags, 24-bit length and data at bytes 0, 4, 5 and 8 |
| SpdyLayouts.WriteRefusedIff | Godeps/_workspace/src/code.google.com/p/go.net/spdy/write.go:22-318 | a writer refuses a zero id where there is one, a zero status, a data frame whose id has the top bit set, and more than 2^24 - 1 bytes of data, and nothing else |
| SpdyLayouts.ZeroStatusOnTheWire | Godeps/_workspace/src/code.google.com/p/go.net/spdy/write.go:31-41 | a zero status is noticed when 80 03 00 03 00 00 00 08 and the id are out |
| SpdyLayouts.PingBytes | Godeps/_workspace/src/code.google.com/p/go.net/spdy/read.go:56-68 | 80 03 00 06 00 00 00 04 and a non-zero id are read as that PING |
| SpdyLayouts.ReadPingAt | Godeps/_workspace/src/code.google.com/p/go.net/spdy/read.go:56-68 | what any bytes of kind 6 are read as: a PING without flags and with an id, or which error, and what is left |
| SpdyLayouts.ReadRstStreamAt | Godeps/_workspace/src/code.google.com/p/go.net/spdy/read.go:24-38 | the same for kind 3, RST_STREAM |
| SpdyLayouts.ReadGoAwayAt | Godeps/_workspace/src/code.google.com/p/go.net/spdy/read.go:70-85 | the same for kind 7, GOAWAY: no flags, length 8 |
| SpdyLayouts.ReadWindowUpdateAt | Godeps/_workspace/src/code.google.com/p/go.net/spdy/read.go:91-106 | the same for kind 9, WINDOW_UPDATE: no flags, length 8 |
| SpdyLayouts.ReadSettingsAt | Godeps/_workspace/src/code.google.com/p/go.net/spdy/read.go:40-58 | kind 4 is a count and as many settings, each at its place |
| SpdyLayouts.ReadSynStreamAt | Godeps/_workspace/src/code.google.com/p/go.net/spdy/read.go:219-258 | kind 1 is id, associated id, priority, slot and headers, with the errors of a refused name and a zero id |
| SpdyLayouts.ReadSynReplyAt | Godeps/_workspace/src/code.google.com/p/go.net/spdy/read.go:260-289 | kind 2 is id and headers |
| SpdyLayouts.ReadHeadersAt | Godeps/_workspace/src/code.google.com/p/go.net/spdy/read.go:291-327 | kind 8 is id and headers |
| SpdyLayouts.RefusedNames | Godeps/_workspace/src/code.google.com/p/go.net/spdy/types.go:204-217 | the names that a request and a response may not hold |
| SpdyLayouts.ReadUnknownAt | Godeps/_workspace/src/code.google.com/p/go.net/spdy/read.go:112-131 | no other kind is known |
| SpdyLayouts.ReadDataAt | Godeps/_workspace/src/code.google.com/p/go.net/spdy/read.go:329-348 | bytes with the top bit clear are a DATA frame: id, flags, 24-bit length, data |
| SpdyRoundTrip.KeepsContents | Godeps/_workspace/src/code.google.com/p/go.net/spdy/write.go:22-318 | a writer changes nothing of a frame but its header |
| Framers.Framer.WriteFrame | Godeps/_workspace/src/code.google.com/p/go.net/spdy/write.go:137-139 | emits exactly the bytes of the frame, stamps its header, leaves no header block behind, and on an error emits what had gone out before it |
| Framers.Framer.WriteHeaderValueBlock | Godeps/_workspace/src/code.google.com/p/go.net/spdy/write.go:155-182 | appends the count and one entry for every header in the order visited |
| Framers.Framer.WriteSynStream | Godeps/_workspace/src/code.google.com/p/go.net/spdy/write.go:184-226 | the writer of SYN_STREAM, its length taken from the header block |
| Framers.Framer.WriteRstStream | Godeps/_workspace/src/code.google.com/p/go.net/spdy/write.go:22-45 | a zero status is refused after the header and the id have gone out |
| Framers.Framer.WriteSettings | Godeps/_workspace/src/code.google.com/p/go.net/spdy/write.go:47-69 | the writer of SETTINGS and its loop |
| Framers.Framer.WriteData | Godeps/_workspace/src/code.google.com/p/go.net/spdy/write.go:298-318 | a zero id, a set top bit or too much data is refused before anything goes out |
| Framers.Framer.ReadFrame | Godeps/_workspace/src/code.google.com/p/go.net/spdy/read.go:146-157 | the field-by-field reader returns the frame or error, and leaves the rest of the input, that the format says |
| Framers.Framer.ParseHeaderValueBlock | Godeps/_workspace/src/code.google.com/p/go.net/spdy/read.go:177-217 | the header loop, its last complaint and its running map |
| Framers.Framer.ParseEntry | Godeps/_workspace/src/code.google.com/p/go.net/spdy/read.go:185-211 | one header: unlowered and duplicate names are noted, values split and added |
| Framers.Framer.ParseSettings | Godeps/_workspace/src/code.google.com/p/go.net/spdy/read.go:40-58 | the settings loop |
| Framers.Framer.ParseBody | Godeps/_workspace/src/code.google.com/p/go.net/spdy/read.go:112-172 | the reader of each type of control frame; unknown types are refused |
| MysqlBuffers.Buffer.ReadNext | Godeps/_workspace/src/github.com/go-sql-driver/mysql/buffer.go:73-85 | the next bytes of the stream, however the reader cuts it, as a window of the buffer that stays until a call has to fill; a failure loses nothing; on an unbroken connection it succeeds exactly when enough bytes are to come |
| MysqlBuffers.Buffer.Fill | Godeps/_workspace/src/github.com/go-sql-driver/mysql/buffer.go:36-69 | compaction, growth and refilling change no byte to come, keep idx + length inside the array, and end |
| MysqlBuffers.Buffer.Compact | Godeps/_workspace/src/github.com/go-sql-driver/mysql/buffer.go:37-52 | moves the buffered bytes to the front in place, or into an array of the next multiple of 4096 |
| MysqlBuffers.Buffer.TakeBuffer | Godeps/_workspace/src/github.com/go-sql-driver/mysql/buffer.go:91-106 | gives out the buffer only when nothing is buffered in it, and one large enough |
| MysqlPackets.RoundTripIff | Godeps/_workspace/src/github.com/go-sql-driver/mysql/packets.go:26-137 | a body comes back from the reader if and only if its length is not a multiple of 0xffffff; the sequence numbers run on modulo 256 |
| MysqlPackets.WrongSequence | Godeps/_workspace/src/github.com/go-sql-driver/mysql/packets.go:44-52 | packets numbered from another number are never accepted |
| MysqlPackets.PacketOnTheWire | Godeps/_workspace/src/github.com/go-sql-driver/mysql/packets.go:101-137 | three bytes of length, the lowest first, a sequence number and the body; from 0xffffff bytes on a full packet and the rest under the next number |
| MysqlPackets.ReadFromTheWire | Godeps/_workspace/src/github.com/go-sql-driver/mysql/packets.go:26-75 | what any bytes are read as: which error, or a body put together from packets in order |
| MysqlPackets.SeenOnTheWire | Godeps/_workspace/src/github.com/go-sql-driver/mysql/packets.go:44-52 | a number too high is errPktSyncMul, one too low errPktSync, all else a lost connection |
| MysqlPackets.MysqlConn.WritePacket | Godeps/_workspace/src/github.com/go-sql-driver/mysql/packets.go:79-99 | a body within the limit goes out under its caller's header, a longer one as its packets, one beyond the server's limit not at all; a failed write has sent a prefix; nothing outside the packet is touched |
| MysqlPackets.MysqlConn.SplitPacket | Godeps/_workspace/src/github.com/go-sql-driver/mysql/packets.go:101-137 | full packets and a shorter one are sent, each header written over bytes already sent |
| MysqlPackets.MysqlConn.SendFull | Godeps/_workspace/src/github.com/go-sql-driver/mysql/packets.go:108-121 | one round of the split: the header goes over sent bytes and the body to come is untouched |
| MysqlPackets.MysqlConn.ReadPacket | Godeps/_workspace/src/github.com/go-sql-driver/mysql/packets.go:26-75 | the recursive reader returns what the bytes to come mean, consumes no other, and closes the connection on the errors it reports as a lost connection |
| LongData.PiecesAreTheArgument | Godeps/_workspace/src/github.com/go-sql-driver/mysql/packets.go:746-773 | the pieces concatenate to the argument, none empty, all but the last filling the limit |
| LongData.PrefixOnTheWire | Godeps/_workspace/src/github.com/go-sql-driver/mysql/packets.go:757-770 | the prefix: command 24, the statement id in four bytes and the parameter in two, the lowest first |
| LongData.ArgumentArrivesIff | Godeps/_workspace/src/github.com/go-sql-driver/mysql/packets.go:729-783 | for every argument, limit and sequence number, a receiver that reads command by command gets the argument back if and only if no command is split, or numbering starts from 0 and the one split command comes first and ends in no empty packet; a full command of a multiple of 256 packets allows another |
| LongData.PiecesArriveIff | Godeps/_workspace/src/github.com/go-sql-driver/mysql/packets.go:751-773 | the same over any list of pieces: all of them or nothing |
| LongData.CommandReadIff | Godeps/_workspace/src/github.com/go-sql-driver/mysql/packets.go:751-773 | a command is read by a receiver that numbers from 0 if and only if it was not split, or was split when the connection stood at 0 and not into full packets only; otherwise it is refused |
| LongData.MysqlStmt.WriteCommandLongData | Godeps/_workspace/src/github.com/go-sql-driver/mysql/packets.go:729-783 | for every limit that leaves room for the prefix, what goes out are the commands of the pieces under one and the same prefix; the loop ends; the sequence is reset |
| LongData.MysqlStmt.SendCommand | Godeps/_workspace/src/github.com/go-sql-driver/mysql/packets.go:751-776 | header and prefix are written over sent bytes only, and the command goes out |
| Dsn.RoundTripIff | Godeps/_workspace/src/github.com/go-sql-driver/mysql/utils.go:77-166 | a configuration survives, with any password at all, if and only if its other fields keep clear of the characters the scans stop at |
| Dsn.DefaultsIff | Godeps/_workspace/src/github.com/go-sql-driver/mysql/utils.go:142-158 | a name of nothing but a database gets the default network and address, exactly when the database holds no slash and no question mark |
| Dsn.NamesMean | Godeps/_workspace/src/github.com/go-sql-driver/mysql/utils.go:77-166 | a name with any of its parts left out is parsed to what it means: user without password, network without address, the default address of tcp and of unix, the error of another network |
| Dsn.NoSlash | Godeps/_workspace/src/github.com/go-sql-driver/mysql/utils.go:85-158 | a name without a slash means the default network and address |
| Dsn.Unclosed | Godeps/_workspace/src/github.com/go-sql-driver/mysql/utils.go:110-121 | a parenthesis not closed before the slash is an invalid address, one closed too early an unescaped one |
| Dsn.RefusedParams | Godeps/_workspace/src/github.com/go-sql-driver/mysql/utils.go:128-137 | a refused query string makes the name invalid |
| Dsn.ParseDSN | Godeps/_workspace/src/github.com/go-sql-driver/mysql/utils.go:77-166 | the nested scans find the last slash, the last at sign, the first colon, the first parenthesis and the first question mark, with their errors and defaults |
| Dsn.ScanNet | Godeps/_workspace/src/github.com/go-sql-driver/mysql/utils.go:108-123 | the scan for the address, with the two errors of a missing closing parenthesis |
| OldPassword.MyRnd.NextByte | Godeps/_workspace/src/github.com/go-sql-driver/mysql/utils.go:320-325 | 32-bit arithmetic never wraps and the byte is at most 30 |
| OldPassword.ScrambleOldPassword | Godeps/_workspace/src/github.com/go-sql-driver/mysql/utils.go:355-378 | nothing for an empty password, otherwise eight bytes in 64..95: those of the generator above 64, each masked with the ninth |
| OldPassword.BlanksDoNotCount | Godeps/_workspace/src/github.com/go-sql-driver/mysql/utils.go:328-352 | passwords that differ in spaces and tabs only have the same hash |
| OldPassword.HashOfMyPass | Godeps/_workspace/src/github.com/go-sql-driver/mysql/utils.go:328-352 | the hash of mypass is 6f8c114b 58f2ce9e, as MySQL's manual has it |
| OldPassword.KnownScramble | Godeps/_workspace/src/github.com/go-sql-driver/mysql/utils.go:320-375 | the nine bytes of the generator for that password and challenge |
| OldPassword.KnownBytes | Godeps/_workspace/src/github.com/go-sql-driver/mysql/utils.go:370-375 | and the scramble they mask to, 47 57 5c 5a 43 5b 42 51 |

## Left out

- Panics and their recovery in the event loop, and the nil tunnel that `NewConnTunnel` can return: every session creation is taken to succeed in the end.
- The capacity of the heap's slice: the methods that add backends require room for them, where the source panics beyond 8192.
- The order that `sort.Strings` or `utils.Shuffle` gives the new addresses: any order is allowed. container/heap is not part of the repository; its loops are those of Go 1.3.
- Sockets, dials, io.Copy, clocks and logging: what they answer is a parameter or a choice of the step.
- The endless select loop: one method for every branch, and runs as sequences of steps.
- Liveness, fairness and goroutine scheduling, and reads that race on fields without a lock: a step is one branch, one lock region or one channel operation.
- Backends.Backend.ForwarderNewConnection: each round is a `Load`, then a `StreamCreated` or a `Swap` and a `Report`, of `TunnelRepair`; the correspondence is not stated as a theorem.
- TunnelClosings.ClosedExactlyOnce: closing follows the winning compare-and-swap at once; a forwarder that loaded a connection may still try it after it is closed.
- FrameQueues.PriorityFrameQueue.Push: the caller is not at the last insertion id, where the 64-bit counter would wrap; waiting on the condition variable is a result, not a wait.
- StreamChannels.ChannelDiscipline: data frames, headers and replies without FIN change nothing here. A reply whose write fails is not counted among the closing frames; any other frame is counted when it is written, whether or not that write succeeds.
- Removing a stream from the map when both sides are done: `Close` works in two lock regions and a last `WriteData` never removes it, so it does not hold.
- Shutting a connection down: its timeouts and the wait for open streams.
- zlib header compression and its dictionary; header names outside ASCII, and the names that http.CanonicalHeaderKey leaves alone because of a character that no header may hold.
- SpdyRoundTrip.RoundTripIff: numbers of headers and lengths of names and values are below 2^32, the range of the fields they are written in.
- Framers.Framer.WriteSynStream: a failing writer underneath, as for `WriteFrame`.
- Framers.Framer.WriteFrame: a failing writer underneath, which would leave a header block in the buffer, is not modelled; the count of bytes that `writeHeaderValueBlock` returns and nobody uses is not either.
- MysqlBuffers.Buffer.ReadNext: the result is the value of the slice when it is returned, and its window of the array; which bytes a later fill writes over it is not stated.
- LongData.MysqlStmt.WriteCommandLongData: a packet limit that leaves no room behind the seven bytes of the prefix; with maxPacketAllowed - 1 equal to 7 the source does not end, below that it panics on a negative slice index.
- Dsn.ParseDSN: the query string is kept as it stands; which strings `parseDSNParams` accepts is a parameter, and what they set is not part of this model.
- The 8-byte length-encoded integer, NULL bitmaps, rows, dates, the handshake and the SHA1 scramble of the MySQL driver.
- The ipvs engine, the wrangler, the etcd and libvirt clients, configuration and the commands: set reconciliation like that of the scheduler, foreign calls and plumbing.
