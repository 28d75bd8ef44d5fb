# A verified model of goindustrial

goindustrial is a Go library for talking to industrial controllers: Modbus TCP clients and
servers, EtherNet/IP with CIP and PCCC, and a monitor that polls data points and clusters
neighbouring reads. This project models its hard core in Dafny and proves properties of
that model for all inputs, all runs or all reachable states. `dafny verify dfyconfig.toml`
checks everything.

The modules form five stacks.

**Clustered reads.** `Bytes`, `Bits` and `DataPoints` hold the wire forms and the device
memory. `ClusterPlan` is the greedy planner: its loops, its invariants and the partition
law. `ClusterOptimal` proves that no plan within the limits needs fewer reads, whenever no
single point exceeds them. `ClusteringReader` is the reader object with cache and
generations; its `Read` returns what direct reads would, with exactly the inner reads the
plan and the cache call for. `ClusterFlights` is the concurrent single-flight protocol as a
transition system, `FlightOrigins` says whose inner read serves whom and that the values
are direct ones, `ClusterCache` follows the cache across changes of plan, and
`CacheHistory` tells from the calls alone who is misled and what they read.

**Modbus connection.** `TransactionPool` is the 16-bit ID allocator and transaction table.
`Connection` models the connection, its pools, its write channels and its read and write
loops as a transition system over critical sections. `ConnectionOwners` adds who owns what,
`ConnectionRuns` draws the conclusions for every run, `ConnectionAccount` tells from the
steps alone which transaction was answered, failed and written, and `LateSender` settles
when a sender can release a transaction that is not its own.

**Modbus end to end.** `ModbusFrames` (framing), `ModbusOps` (what each request means, and
its layout), `ModbusServer` (store, handlers, connection loop), `DeviceId` (device
identification), `ModbusLate` (requests the client has given up on) and `ModbusClient`
(generators, parsers, retries) compose: whatever a client call returns is what the same
operation on the server's maps returns, and the maps change accordingly. The direct reads
of the clustering theorems are those of `ModbusClient.Client.ReadDataPoint`.

**Lifecycles.** `Monitor` (subscribe, emit, close), with `MonitorOrder` and
`MonitorOverlap` on the order of events, `MonitorLoss` on which get lost and `MonitorStop`
on what ends, `Reconnecting` (the reconnecting transport), `ConnectionManager` (the CIP
connection table) and `Sessions` (EtherNet/IP sessions) are proved over every run.

**Parsers and printers.** `Text`, `SlcAddress` (PCCC addresses), `Epath`, `TagPath` and
`TagRender` (Logix tags), `ByteReader`, `CipMessage`, `Cpf` and `Encapsulation` (the CIP
envelope, up to the server loop and back) prove round trips, each with the exact condition
under which it holds, and `TagRequests` composes them from the text of a tag to the device.
`WireLayouts` fixes the formats of both protocols byte by byte. `Wrappers` holds what the
modules share.

Go's integers are modelled by bounded integers with explicit wrap-around. Methods that hold
a lock for their whole body are steps; concurrent runs are sequences of such steps, chosen
freely. A Go panic is a result of its own.

## Where promise and code differ

The model follows the code. These results say where a promise fails and, wherever one
condition decides it, exactly when.

- Clustering is exact for ranges that end at or below address 65535 and for no others
  (`ClusteringReader.SafeIffInRange`): a range that takes in the last address has an end
  that wraps to 0, is found in any window that starts early enough, and is cut out of the
  wrong place.
- The comment on the clustering reader says that a point is served from the smallest window
  that covers it. It is the first one; the two agree for all points exactly when no window
  shadows a smaller one (`ClusteringReader.SmallestIff`), and the planner makes windows that
  do (`ClusteringReader.PlannerShadows`).
- The planner's reads are as few as possible when no point alone exceeds its limit
  (`ClusterOptimal.PlanOptimal`). Every larger size spoils it for some points
  (`ClusterOptimal.OversizedCanBeBeaten`, `ClusterOptimal.HarmlessIff`); among consecutive
  splits that keep oversized points alone the planner is optimal in any case
  (`ClusterOptimal.GreedyOptimal`).
- The configuration comment says that without caching each Read goes to the wire. A call
  issues its own read exactly when no flight for the window is filed when it looks
  (`FlightOrigins.LookDecides`, `FlightOrigins.OwnReadIff`); a finished flight may still be
  filed then (`ClusterFlights.FlightMayPredateRead`).
- Cache entries are filed by window index alone. A Read that is overtaken by a change of plan
  misfiles its block exactly when the window under its index has changed
  (`ClusterCache.CacheStaysRightIff`). A later Read is misled exactly when the last to store
  under its index had another window there (`CacheHistory.RunIsRightIff`). Its values are
  still right in every memory exactly when that window was of the same area, began at the
  same address and was no shorter; otherwise it can return wrong values or panic
  (`CacheHistory.MisledReadIff`).
- Each transaction is completed or released by its own sender, unless some sender, between
  drawing its ID and queueing its request, was overtaken by more than 65536 further draws
  and gives up then: it releases by ID, and drops a stranger's transaction
  (`ConnectionRuns.TornDownIsAccountedFor`). This happens at every such distance and at no
  other (`LateSender.StrangerReleasedIff`), and the stranger gets no response
  (`LateSender.StrangerIsNeverAnswered`).
- A request that the client has given up on may still be carried out. It can change a later
  answer exactly when it writes a cell that answer shows (`ModbusLate.DisturbsIff`), and it
  can undo a newer write that was answered (`ModbusClient.ReadAfterWrites`,
  `ModbusClient.LateWriteUndoes`).
- Subscribers see the events of one subscription in order. Two subscribers see events in
  opposite orders only if these are of different subscriptions and their broadcasts overlap
  (`MonitorOverlap.OrdersDifferOnlyInOverlap`); there is a run in which they do
  (`MonitorOverlap.NoCommonOrder`).
- The events channel is documented to carry every event. It loses exactly as many as the
  surplus of sends over receives, at its highest, exceeds the buffer
  (`MonitorLoss.LostIsExcess`), so none if and only if every send finds fewer than the
  buffer's size of earlier ones not yet received (`MonitorLoss.EventsCarriesAllIff`); with
  nobody receiving it does lose them (`MonitorLoss.UnreadIsLost`).
- A tag path decodes to its names exactly up to 255 bytes per name (`Epath.DecodeIff`), a
  CIP request survives exactly with an even path of at most 510 bytes that is not empty
  together with its data (`CipMessage.RequestRoundTrip`), a Forward_Open exactly with such a
  path that is not empty (`ConnectionManager.OpenRoundTrip`).
- The server ends the connection on a packet of more than 4096 bytes, so a request arrives
  exactly if it is sendable and has at most 4080 bytes (`Encapsulation.RequestArrivesIff`).
  For tags this is spelled out in `TagRequests.ReadTagArrivesIff` and
  `TagRequests.WriteTagArrivesIff`.
- A session handle of zero marks a connection without session, but the 32-bit counter comes
  round to it: a client whose registration is a multiple of 2^32 is granted zero and then
  refused every request (`Sessions.RegisteredIsServedIff`, `Sessions.ZeroHandleIsRefused`).
- A connection ID is reused after 2^32 grants; a grant then replaces the connection that
  still holds the ID (`ConnectionManager.GrantKeepsOthersIff`,
  `ConnectionManager.ReuseReplaces`).

## Model

| member | source | states |
|---|---|---|
| `Bits.PackBits` | protocol/modbus/server_protocol.go:48-59 | the or-ing loop leaves a buffer whose bit i is value i and whose padding bits are zero, and touches nothing before it |
| `Bits.UnpackBits` | protocol/modbus/protocol.go:89-96 | the shifting loop returns bit i of the packed bytes as value i, so it inverts every packing of that many values |
| `Bits.PackRegisters` | protocol/modbus/server_protocol.go:106-108 | the loop stores value i big-endian at byte 2i and touches nothing before the offset |
| `Bits.UnpackRegisters` | protocol/modbus/protocol.go:129-133 | the loop returns the one value sequence whose big-endian form the bytes are |
| `Bits.PackedUnique` | protocol/modbus/protocol.go:350-359 | a bit sequence has exactly one packed form |
| `DataPoints.ExtractBits` | protocol/modbus/datapoint.go:183-198 | the bit loop moves any run of bits at any bit offset to bit 0; it panics exactly when the run leaves the block |
| `DataPoints.ClusterExtract` | protocol/modbus/datapoint.go:42-56 | for all four point types, the extracted value is the point's slice of the block with the point's type and the block's byte order; it panics exactly when the slice leaves the block |
| `DataPoints.BoolsToBytes` | protocol/modbus/client.go:248-257 | the client's bit packing is the unique packed form of the bits |
| `DataPoints.RegistersToBytes` | protocol/modbus/client.go:240-246 | the client's register packing is the unique big-endian form of the registers |
| `DataPoints.SliceOfBlock` | protocol/modbus/datapoint.go:42-56 | cutting a point out of a block read of a memory gives the bytes the point itself reads from that memory, for packed bits at any offset and for registers |
| `ClusterPlan.BuildWindows` | monitor/cluster_plan.go:22-104 | the sort-and-merge loops produce the greedy windows of the sorted groups; for points in range, every point is in exactly one window's list (as a multiset), every window contains its points, its count is at most max(limit, size of its first point), and every uncovered run in it is at most the gap threshold |
| `ClusterPlan.MergeGroup` | monitor/cluster_plan.go:55-100 | the merge loop with its open window yields the windows of the specification |
| `ClusterPlan.SortByAddr` | monitor/cluster_plan.go:45-48 | the group is sorted by address and is a permutation of the input; the order of equal addresses is left open |
| `ClusterPlan.GroupsPartition` | monitor/cluster_plan.go:27-32 | each point is in the group of its own area as often as it was given, and in no other |
| `ClusterPlan.WindowsOk` | monitor/cluster_plan.go:55-100 | every greedy window contains its points and keeps size and gap limits, and the windows list the points of the group in order |
| `ClusterPlan.GreedyIsPlan` | monitor/cluster_plan.go:22-104 | the windows of all areas together partition the points given and each is well-formed |
| `ClusterPlan.FindWindow` | monitor/cluster_plan.go:108-124 | the search loop returns the first window whose uint16 range test accepts the point, or -1 when none does |
| `ClusterPlan.CoversIsContains` | monitor/cluster_plan.go:110-119 | on a well-formed window and a point in range, the uint16 test means true containment |
| `ClusterPlan.RegisteredIsCovered` | monitor/cluster_plan.go:108-124 | every registered point is found, in a window that contains it |
| `ClusterOptimal.GreedyOptimal` | monitor/cluster_plan.go:55-100 | no split of a sorted group into consecutive runs that keeps the limits (oversized points alone) has fewer runs than the planner has windows; overlapping, nested and oversized points are included |
| `ClusterOptimal.PlanOptimal` | monitor/cluster_plan.go:22-104 | if no registered point alone exceeds its area's read limit, no plan at all that keeps the limits, however it distributes the points over windows, needs fewer reads than the planner's |
| `ClusterOptimal.HeadsApart` | monitor/cluster_plan.go:71-99 | the points that open two of the planner's windows can be in no window together in any plan |
| `ClusterOptimal.OversizedCanBeBeaten` | monitor/cluster_plan.go:71-98 | for every area, limits and size over the area's limit: two points, one of that size, for which the planner makes at least two windows where one does |
| `ClusterOptimal.HarmlessIff` | monitor/cluster_plan.go:71-98 | the planner is optimal for all points of an area of sizes up to q if and only if q is within the area's read limit |
| `ClusteringReader.ExtractedIsDirect` | monitor/cluster.go:311-316 | a point in range that its window covers is answered exactly as a direct read of the same memory answers it |
| `ClusteringReader.SafeIffInRange` | monitor/cluster_plan.go:108-119 | a requested range is safe through every plan and memory exactly when it is non-empty and ends at or below 65535; otherwise some plan makes the read panic or return wrong bytes |
| `ClusteringReader.OutOfRangeDisagrees` | monitor/cluster_plan.go:108-119 | for each range that is empty or ends past 65535, a concrete plan and memory on which the clustered answer is not the direct one |
| `ClusteringReader.CappedReadIsDirect` | monitor/cluster.go:242-319 | with caps of at most 125 registers and 2000 bits and legal point sizes, clustering changes neither values nor errors |
| `ClusteringReader.WindowIsAccepted` | monitor/cluster_plan.go:60-98 | under the same caps every merged window is itself an accepted read request |
| `ClusteringReader.LastAddressBreaksPlan` | monitor/cluster_plan.go:57-98 | registering address 65535 next to 65534 yields a window that lists it and does not contain it, and reading it panics |
| `ClusteringReader.SmallestIff` | monitor/cluster_plan.go:108-124 | every point in range is served by its smallest covering window if and only if no window shadows a smaller one: comes before it, shares addresses with it, and no earlier window takes all of these |
| `ClusteringReader.PlannerShadows` | monitor/cluster_plan.go:71-99 | two points within the limits whose plan has such a window |
| `ClusteringReader.Plan` | monitor/cluster.go:228-230 | the planner's windows, a plan of the points when these are in range |
| `ClusteringReader.ClusteringReader.constructor` | monitor/cluster.go:170-188 | an empty plan and cache |
| `ClusteringReader.ClusteringReader.Register` | monitor/cluster.go:191-203 | every clusterable point is registered once more for each time it is named; the greedy plan of all of them is installed, the cache emptied and the generation advanced |
| `ClusteringReader.ClusteringReader.Unregister` | monitor/cluster.go:206-225 | every point is registered once less, while it is, for each time it is named; then replans likewise |
| `ClusteringReader.ClusteringReader.Replan` | monitor/cluster.go:228-236 | the plan is that of the registered points, the cache is empty and the generation has advanced by one; cache entry i always holds a read of window i of the current plan |
| `ClusteringReader.ClusteringReader.ReadWindow` | monitor/cluster.go:322-381 | a live cache entry answers with no call of the inner reader; otherwise exactly one call reads the window, and a success is cached, with its time, if caching is on |
| `ClusteringReader.ClusteringReader.Assign` | monitor/cluster.go:266-281 | each point goes to the first window covering it, or to a direct read |
| `ClusteringReader.ClusteringReader.Read` | monitor/cluster.go:242-319 | the calls made are exactly one for each point no window covers, in order, and one for each distinct covering window without a live entry; each other point is cut out of the live entry or the block just read of its first covering window; for ranges in range no panic, and each value is a direct one no older than the cache lifetime; with legal caps and sizes it fails if and only if the transport failed one of its calls or some direct read does; with clustering off one call hands everything on |
| `ClusterFlights.StepInv` | monitor/cluster.go:322-381 | every step of Register, Unregister and concurrent Reads keeps: a call's snapshot is the plan of its generation, its blocks were read for windows of that snapshot, flights are filed under their own key and led by one call |
| `ClusterFlights.BlocksComeFromOwnPlan` | monitor/cluster.go:333-380 | in every interleaving a block a call holds for window i was read for window i of the plan that call began with |
| `ClusterFlights.OneReadInFlight` | monitor/cluster.go:333-380 | in every interleaving at most one inner read is in flight per generation and window |
| `ClusterFlights.FlightMayPredateRead` | monitor/cluster.go:333-380 | a call that begins while a finished flight is still filed is served that block without any inner read |
| `ClusterFlights.PublishedIsReachable` | monitor/cluster.go:348-380 | a run that brings such a state about |
| `FlightOrigins.StepOrigins` | monitor/cluster.go:333-380 | every step keeps: a published block is its leader's own read, the leader of a filed flight is still at it, and each block a call holds is its own read exactly if no flight was filed when it looked |
| `FlightOrigins.LookDecides` | monitor/cluster.go:336-350 | in every run a call that looks for a window leads a flight of its own if none is filed, and otherwise issues nothing and waits for the filed one, which another call is still at |
| `FlightOrigins.OwnReadIff` | monitor/cluster.go:333-380 | in every run a call is served from its own inner read if and only if no flight for the window was filed when it looked; a block read before the call began comes only from a flight that was filed then |
| `FlightOrigins.ConcurrentValueIsDirect` | monitor/cluster.go:311-316 | in every run the value a call cuts out of a successful inner read, for a point in range, is what a direct read of the point would have given at the moment of that inner read |
| `FlightOrigins.FailureEndsTheCall` | monitor/cluster.go:372-381 | in every run a call that is between windows has the block of every window it has looked for: a failed inner read ends its call and all that wait for it |
| `FlightOrigins.CancelledIsOver` | monitor/cluster.go:341-347 | a waiting call whose context ends is over for good, and its flight goes on without it |
| `ClusterCache.CacheStaysRightIff` | monitor/cluster.go:357-367 | a step leaves the cache in step with the plan if and only if it does not store a block of a window that differs from the current one under its index |
| `ClusterCache.CallsStayRightIff` | monitor/cluster.go:324-331 | a call comes to hold a block of another window only by hitting such an entry, and then it does |
| `ClusterCache.UndisturbedIsRight` | monitor/cluster.go:228-236 | in every run, from a right state on, in which whoever hits or stores still has the current plan, every cached and every held block is of the window it is held for |
| `ClusterCache.ReplanInsideReadMisleads` | monitor/cluster.go:357-367 | for any two plans that differ in their first window, a run in which a Read overtaken by the change leaves a block that a later Read takes for its own |
| `CacheHistory.StepInv` | monitor/cluster.go:322-381 | every step keeps: plans, pending blocks and the owner of each cache entry are what the history of calls says |
| `CacheHistory.RunIsRightIff` | monitor/cluster.go:324-331 | in every run all held blocks are of their own windows if and only if no call hit an index under which a call with another window there had last stored |
| `CacheHistory.ServesForIff` | monitor/cluster.go:311-316 | a block of one window serves the points of another, in every memory, if and only if it is of the same area, starts at the same address and is no shorter; otherwise some point reads wrong or panics |
| `CacheHistory.MisledReadIff` | monitor/cluster.go:357-367 | for any two differing first windows a run in which the later Read is served the other's block; its values are the direct ones exactly under that condition |
| `TransactionPool.SameIdApart` | protocol/modbus/transaction.go:223-231 | two draws of the same ID are at least 65536 draws apart |
| `TransactionPool.Wrap` | protocol/modbus/transaction.go:224-225 | the 32-bit counter wraps without disturbing the sequence of 16-bit IDs |
| `TransactionPool.FewInFlightAlwaysPlaceable` | protocol/modbus/transaction.go:220-235 | with fewer than 16 transactions in flight one of the next 16 IDs is free |
| `TransactionPool.PlaceableIff` | protocol/modbus/transaction.go:220-235 | the attempts run out exactly when all of the next 16 IDs are in flight |
| `TransactionPool.TransactionPool.Place` | protocol/modbus/transaction.go:209-245 | fails exactly on a closed pool or when the next 16 IDs are all in flight; otherwise takes the first free one, disturbs no other transaction, and always succeeds below 16 in flight |
| `TransactionPool.TransactionPool.Draw` | protocol/modbus/transaction.go:220-235 | the bounded loop finds the first free ID of the next 16 draws |
| `TransactionPool.TransactionPool.Release` | protocol/modbus/transaction.go:258-268 | hands out the transaction under an ID and forgets it |
| `TransactionPool.TransactionPool.Close` | protocol/modbus/transaction.go:144-167 | once: cancels exactly what is in flight and leaves the pool closed and empty |
| `TransactionPool.TransactionPool.CheckTimeouts` | protocol/modbus/transaction.go:185-197 | a transaction stays if and only if its age does not exceed the timeout, and exactly the others are cancelled |
| `TransactionPool.TransactionPool.Reset` | protocol/modbus/transaction.go:277-288 | cancels exactly what is in flight and leaves the pool empty; counter and state stay |
| `Connection.StepInv` | protocol/modbus/conn.go:77-246 | every step of connecting, tearing down, sending, receiving, failing and timing out keeps the invariant of generations, pools and transactions |
| `Connection.TeardownCore` | protocol/modbus/conn.go:176-189 | teardown closes done channel, socket and pool of the current generation together, and cancels what was in flight |
| `Connection.StepKeepsDraws` | protocol/modbus/transaction.go:209-245 | transactions of one pool carry distinct draws, and the one under an ID is the latest placed with it |
| `ConnectionRuns.ConnectedIsLive` | protocol/modbus/conn.go:77-148 | in every run, connected means that done channel, socket and pool of the current generation are open |
| `ConnectionRuns.ClosedAtMostOnce` | protocol/modbus/conn.go:153-189 | in every run, each generation's done channel and socket are closed at most once, and exactly once when it has been superseded |
| `ConnectionRuns.StaleLoopIsHarmless` | protocol/modbus/conn.go:131-145 | in every run a read or write loop of an older generation reports its loss in vain, finds no transaction to release, and whatever it still takes, writes, fails or completes is its own generation's; pools and all other generations stay as they are |
| `ConnectionRuns.AnsweredAtMostOnce` | protocol/modbus/conn.go:374-381 | a transaction leaves its pool at most once and gets at most one response, and that only through the read loop |
| `ConnectionAccount.StepBooked` | protocol/modbus/conn.go:269-458 | every step gives a transaction exactly the response, the error and the removal from its pool that it should, by a table of steps |
| `ConnectionAccount.AccountIsExact` | protocol/modbus/transaction.go:44-62 | in every run the responses of a transaction are the completions with a response by the read loop that held it, and its errors the failing completions, failed writes, timeouts, resets and closes that hit it |
| `ConnectionAccount.AnsweredIff` | protocol/modbus/conn.go:374-381 | in every run a transaction has its response if and only if at some step the read loop that held it completed it with one |
| `ConnectionAccount.ResponseGoesToItsId` | protocol/modbus/conn.go:374-381 | in every run what a read loop completes is of its own generation and pool and has the ID it last looked up |
| `ConnectionAccount.StepMoves` | protocol/modbus/conn.go:269-458 | every step changes what a generation's loops hold and its write channel by a table of steps; a new generation starts with nothing |
| `ConnectionAccount.WrittenInOrder` | protocol/modbus/conn.go:390-458 | in every run a generation's write loop takes exactly what was handed to its channel, in that order, and the rest is in the channel |
| `ConnectionAccount.ConnectOpens` | protocol/modbus/conn.go:77-148 | in every run connecting opens a new generation on an open, empty pool; a failed attempt leaves the connection down and its pool closed |
| `ConnectionAccount.DownIsDown` | protocol/modbus/conn.go:153-189 | in every run a connected generation told to go down, or reporting its loss, is disconnected, its done channel and socket closed, its pool closed and empty |
| `ConnectionAccount.PlacedIff` | protocol/modbus/transaction.go:209-245 | a sender gets a place if and only if its pool is open and one of the next 16 draws gives a free ID |
| `ConnectionAccount.PlacedFirst` | protocol/modbus/transaction.go:209-245 | a sender that gets a place gets the first free ID, in its own generation's pool |
| `ConnectionRuns.NoResponseAfterCancel` | protocol/modbus/transaction.go:144-167 | a transaction cancelled by timeout, reset or close never gets a response in any continuation of the run |
| `ConnectionRuns.TornDownIsAccountedFor` | protocol/modbus/conn.go:176-246 | after a teardown the pool is closed and empty, and each transaction ever placed in it left once: completed, in the hands of the read loop, or released by a sender, its own or one more than 65536 draws late |
| `ConnectionOwners.StepOwners` | protocol/modbus/conn.go:390-458 | every step keeps: what a generation's write channel, write loop and read loop hold was placed by its own senders, the channel holds at most 100, and no two connected generations share a pool |
| `ConnectionRuns.LoopsTouchTheirOwn` | protocol/modbus/conn.go:269-458 | in every run a step of a generation's read or write loop touches no transaction, pool or generation but its own |
| `LateSender.StrangerReleasedIff` | protocol/modbus/conn.go:225-234 | for every number of draws: in some run a sender releases another caller's transaction after that many draws if and only if it exceeds 65536 |
| `LateSender.StrangerIsNeverAnswered` | protocol/modbus/conn.go:225-245 | that transaction gets no response in any continuation of the run |
| `ModbusFrames.FrameRoundTrip` | protocol/modbus/request.go:57-112 | encoding and decoding a frame is the identity, whatever follows on the wire, exactly up to 65533 data bytes |
| `ModbusFrames.DecodedIsPrefix` | protocol/modbus/response.go:71-106 | a decoded frame re-encodes to the very bytes it was read from |
| `ModbusFrames.StreamRoundTrip` | protocol/modbus/server.go:468-498 | a stream of whole frames is cut into exactly those frames |
| `ModbusFrames.Message.EncodeHeader` | protocol/modbus/mbap.go:23-40 | the seven header bytes, with the length field counting the unit ID and cut to 16 bits |
| `ModbusFrames.Message.Encode` | protocol/modbus/request.go:57-74 | header, function code and data in wire order |
| `ModbusFrames.Message.Decode` | protocol/modbus/request.go:78-112 | succeeds exactly on a complete frame and then holds it; a failure leaves the PDU untouched, and the whole message untouched when even the header is missing |
| `ModbusOps.StoredCells` | protocol/modbus/datastore.go:192-206 | a write puts its values at the addressed cells, modulo 65536, and leaves every other cell as it was |
| `ModbusOps.ReadWriteSeesWrite` | protocol/modbus/server_protocol.go:338-353 | function 0x17 answers a register it also writes with the written value, however the ranges overlap or wrap, and any other as it was |
| `ModbusOps.ReadBackCoils` | protocol/modbus/datastore.go:77-94 | coils read back as written |
| `ModbusOps.ReadBackRegisters` | protocol/modbus/datastore.go:117-134 | registers read back as written |
| `ModbusOps.WriteCoilSets` | protocol/modbus/datastore.go:157-163 | a single coil write sets that coil to the value asked for and nothing else, and the coil reads back so |
| `ModbusOps.WriteRegisterSets` | protocol/modbus/datastore.go:166-172 | a single register write sets that register to the value asked for and nothing else, and it reads back so |
| `ModbusOps.ReadShowsCells` | protocol/modbus/datastore.go:77-154 | a read answers with the addressed cells of its area in order, modulo 65536 |
| `ModbusOps.CoilsStored` | protocol/modbus/datastore.go:175-189 | the addressed coils hold the written values in order, modulo 65536 |
| `ModbusOps.RegistersStored` | protocol/modbus/datastore.go:192-206 | the addressed registers hold the written values in order, modulo 65536 |
| `ModbusOps.ReadWriteStored` | protocol/modbus/server_protocol.go:338-360 | stores like a write and answers with the cells it leaves, in order |
| `ModbusOps.WritesStayInArea` | protocol/modbus/datastore.go:157-206 | reads change nothing, coil writes only coils, register writes only holding registers |
| `ModbusOps.Idempotent` | protocol/modbus/client.go:263-318 | repeating any of the operations changes neither memory nor answer, so resending is harmless |
| `ModbusOps.RequestRoundTrip` | protocol/modbus/server_protocol.go:208-336 | the server reads every request the client can build as the operation it was built from |
| `ModbusOps.ParsedIsAccepted` | protocol/modbus/server_protocol.go:28-38 | the server accepts nothing outside the client's own limits |
| `ModbusOps.ReplyRoundTrip` | protocol/modbus/protocol.go:64-137 | the client reads every response as the answer the server gave |
| `ModbusOps.SizesCompose` | protocol/modbus/types.go:367-413 | every accepted request and its response take at most 253 bytes and every byte-count field is exact |
| `ModbusServer.MemoryStore.constructor` | protocol/modbus/datastore.go:67-74 | all cells unset |
| `ModbusServer.MemoryStore.ReadBits` | protocol/modbus/datastore.go:77-114 | refuses quantities outside 1 to 2000; otherwise the cells from the address on, modulo 65536, unset ones false |
| `ModbusServer.MemoryStore.ReadRegisters` | protocol/modbus/datastore.go:117-154 | likewise for registers and 1 to 125 |
| `ModbusServer.MemoryStore.WriteSingleCoil` | protocol/modbus/datastore.go:157-163 | sets that cell only |
| `ModbusServer.MemoryStore.WriteSingleRegister` | protocol/modbus/datastore.go:166-172 | sets that cell only |
| `ModbusServer.MemoryStore.WriteMultipleCoils` | protocol/modbus/datastore.go:175-189 | refuses lengths outside 1 to 1968; otherwise the loop stores exactly the addressed cells, modulo 65536 |
| `ModbusServer.MemoryStore.WriteMultipleRegisters` | protocol/modbus/datastore.go:192-206 | likewise for registers and 1 to 123 |
| `ModbusServer.Server.HandleReadBits` | protocol/modbus/server_protocol.go:19-69 | answers as the operation does on the memory, or with exception 3, and changes nothing |
| `ModbusServer.Server.HandleReadRegisters` | protocol/modbus/server_protocol.go:73-118 | answers as the operation does on the memory, or with exception 3, and changes nothing |
| `ModbusServer.Server.HandleWriteSingleCoil` | protocol/modbus/server_protocol.go:149-180 | FF00 sets the addressed coil, 0000 clears it, each echoed; anything else is exception 3 without effect |
| `ModbusServer.Server.HandleWriteSingleRegister` | protocol/modbus/server_protocol.go:183-205 | four bytes set the addressed register to the big-endian value and are echoed; anything else is exception 3 without effect |
| `ModbusServer.Server.HandleWriteMultipleCoils` | protocol/modbus/server_protocol.go:208-257 | applies the operation and confirms address and count, or exception 3 without effect |
| `ModbusServer.Server.HandleWriteMultipleRegisters` | protocol/modbus/server_protocol.go:260-306 | applies the operation and confirms address and count, or exception 3 without effect |
| `ModbusServer.Server.HandleReadWriteMultipleRegisters` | protocol/modbus/server_protocol.go:309-371 | writes, then answers the read from the written memory, or exception 3 without effect |
| `ModbusServer.Server.Dispatch` | protocol/modbus/server.go:534-549 | every function code goes to its handler; exception 1 when there is none |
| `ModbusServer.Server.Answer` | protocol/modbus/server.go:494-528 | one response frame with the request's transaction and unit IDs, exceptions with the high bit set |
| `ModbusServer.Server.HandleConnection` | protocol/modbus/server.go:468-530 | the connection loop turns the bytes of a client into the bytes and the memory of the specification, malformed headers and cut-off frames included |
| `ModbusServer.PipelinedRequests` | protocol/modbus/server.go:468-530 | for any number of requests sent ahead, the output is one response frame per request, in order, each computed on the memory its predecessors left |
| `ModbusServer.AnswersMatch` | protocol/modbus/server.go:513-528 | each response carries its request's transaction and unit IDs |
| `WireLayouts.ModbusFrame` | protocol/modbus/mbap.go:23-40 | a frame byte by byte: transaction, protocol 0, length, unit, function code, data |
| `WireLayouts.ReadLayout` | protocol/modbus/protocol.go:45-60 | functions 1 to 4 byte by byte |
| `WireLayouts.SingleLayout` | protocol/modbus/protocol.go:238-304 | functions 5 and 6 byte by byte |
| `WireLayouts.CoilsLayout` | protocol/modbus/protocol.go:328-363 | function 15 byte by byte, each coil in its own bit |
| `WireLayouts.RegistersLayout` | protocol/modbus/protocol.go:389-419 | function 16 byte by byte |
| `WireLayouts.ReadWriteLayout` | protocol/modbus/protocol.go:444-485 | function 23 byte by byte |
| `WireLayouts.BitReplyLayout` | protocol/modbus/server_protocol.go:19-69 | the reply to a bit read byte by byte, each value in its own bit |
| `WireLayouts.RegisterReplyLayout` | protocol/modbus/server_protocol.go:73-118 | the reply to a register read byte by byte |
| `WireLayouts.WriteReplyLayout` | protocol/modbus/server_protocol.go:149-306 | the replies to the four writes byte by byte |
| `WireLayouts.ExceptionLayout` | protocol/modbus/server.go:506-528 | an exception byte by byte |
| `WireLayouts.ModbusFaults` | protocol/modbus/server_protocol.go:28-180 | wrong lengths, quantities and coil values get exception 3, unknown functions exception 1, and none changes the memory |
| `WireLayouts.DirectTypes` | protocol/modbus/client.go:181-238 | a direct read is boolean for bits, a 16-bit number for one register, bytes for several, big-endian, and names its point |
| `DeviceId.EncodeIdent` | protocol/modbus/server_protocol.go:444-464 | the encoding loop with its moving offset writes header and objects in order, each value as long as its length byte says |
| `DeviceId.DecodeIdent` | protocol/modbus/protocol.go:548-618 | the parsing loop with its moving offset computes the specification: exactly count objects, or failure |
| `DeviceId.IdentRoundTrip` | protocol/modbus/protocol.go:548-618 | a response is read back as it was meant if and only if its count and length fields are true |
| `DeviceId.HandleDeviceId` | protocol/modbus/server_protocol.go:374-474 | for any table of values, the objects the request asks for and the device has, or exception 3 |
| `DeviceId.IdentIsUnderstood` | protocol/modbus/server_protocol.go:374-474 | for any table of values: the client reads off exactly the objects asked for that the table has, the store untouched, if and only if none of their values exceeds 255 bytes |
| `DeviceId.ServerIdentIsUnderstood` | protocol/modbus/server_protocol.go:420-429 | with the server's own table, every code and object ID gets a reply of at most 154 bytes from which the client reads exactly the objects asked for that the server has |
| `DeviceId.BasicObjects` | protocol/modbus/server_protocol.go:395-399 | a basic or unknown code gets exactly vendor name, product code and revision, with the server's values |
| `DeviceId.StreamObjects` | protocol/modbus/server_protocol.go:403-418 | the regular stream has exactly the objects 0 to 6, the extended stream 0x80 as well, in order |
| `DeviceId.SingleObject` | protocol/modbus/server_protocol.go:401-402 | a request for one object gets that one, or none if the server has none such |
| `DeviceId.IdentLayout` | protocol/modbus/server_protocol.go:431-464 | the response byte by byte: type, code, conformity, count, and each object as ID, length and value |
| `ModbusClient.GenerateRead` | protocol/modbus/protocol.go:45-60 | refuses a quantity outside the limits, otherwise the request PDU of the operation |
| `ModbusClient.GenerateWriteCoil` | protocol/modbus/protocol.go:238-259 | the request PDU, 0xFF00 for on and 0x0000 for off |
| `ModbusClient.GenerateWriteRegister` | protocol/modbus/protocol.go:294-304 | the request PDU |
| `ModbusClient.GenerateWriteCoils` | protocol/modbus/protocol.go:328-363 | refuses a count outside 1 to 1968, otherwise the request PDU with exact byte count |
| `ModbusClient.GenerateWriteRegisters` | protocol/modbus/protocol.go:389-419 | refuses a count outside 1 to 123, otherwise the request PDU with exact byte count |
| `ModbusClient.GenerateReadWrite` | protocol/modbus/protocol.go:444-485 | refuses counts outside 1 to 125 and 1 to 121, otherwise the request PDU with exact byte count |
| `ModbusClient.ParseBitResponse` | protocol/modbus/protocol.go:64-100 | refuses a wrong length or byte count, otherwise the packed bits |
| `ModbusClient.ParseRegisterResponse` | protocol/modbus/protocol.go:104-137 | refuses a wrong length or byte count, otherwise the registers |
| `ModbusClient.GeneratedIsServed` | protocol/modbus/server.go:534-549 | a generated request is never answered with an exception |
| `ModbusClient.ResponseFits` | protocol/modbus/response.go:50-106 | every response of the data functions survives framing |
| `ModbusClient.Client.Exchange` | protocol/modbus/conn.go:315-381 | one attempt, whose fate on the wire is free: delivered, it gets what the server answered to this very request; with the response lost it is carried out unanswered; with the request lost it is not carried out |
| `ModbusClient.Client.Send` | protocol/modbus/client.go:263-318 | it fails if and only if none of its 1 + retries attempts is answered, and tries until the first that is; however often the request was resent and whatever abandoned requests ran meanwhile, the answer is that of the memory they left, and the request then took effect |
| `ModbusClient.Client.RunLate` | protocol/modbus/client.go:287-307 | abandoned requests may be carried out at any later moment, in any order: those that run and those still outstanding are together exactly those that were outstanding, and the memory is what the ones that ran have left |
| `ModbusClient.NothingOutstanding` | protocol/modbus/client.go:263-318 | with no abandoned request outstanding, an answered call had exactly its effect, once, however often it was resent, and its answer is the direct one; a failed one had that effect or none |
| `ModbusClient.AnswerStands` | protocol/modbus/client.go:263-318 | with some outstanding, the answer is still that of the memory at the time of the call unless one of them writes a cell the answer shows |
| `ModbusClient.ReadAfterWrites` | protocol/modbus/client.go:263-318 | a failed write, an answered second write to the register, then an answered read: it shows the second value, or that of the last abandoned sending that ran in between |
| `ModbusClient.LateWriteUndoes` | protocol/modbus/client.go:287-307 | for every memory, register and two values, three calls of which only the second write succeeds and the read shows the first value |
| `ModbusLate.DisturbsIff` | protocol/modbus/client.go:287-307 | a request carried out late can change a later answer if and only if it writes a cell that answer shows |
| `ModbusLate.AnswerSurvives` | protocol/modbus/client.go:287-307 | any number of late requests that write nothing the answer shows leave it alone |
| `ModbusLate.RepeatedIsOnce` | protocol/modbus/client.go:269-307 | any number of executions of one request have the memory and the answer of one |
| `ModbusClient.Client.ReadBits` | protocol/modbus/client.go:326-359 | refused, unsent, exactly outside the limits; failed exactly if no attempt is answered; otherwise the answer is the addressed cells of the memory that the requests carried out meanwhile have left |
| `ModbusClient.Client.ReadRegisters` | protocol/modbus/client.go:364-397 | refused, unsent, exactly outside the limits; failed exactly if no attempt is answered; otherwise the answer is the addressed cells of the memory that the requests carried out meanwhile have left |
| `ModbusClient.Client.WriteSingleCoil` | protocol/modbus/client.go:401-416 | failed exactly if no attempt is answered; otherwise the addressed coil of the store has the value asked for |
| `ModbusClient.Client.WriteSingleRegister` | protocol/modbus/client.go:420-435 | failed exactly if no attempt is answered; otherwise the addressed register of the store has the value asked for |
| `ModbusClient.Client.WriteMultipleCoils` | protocol/modbus/client.go:439-454 | refused, unsent, exactly outside the limits; failed exactly if no attempt is answered; otherwise the addressed coils of the store have the values asked for |
| `ModbusClient.Client.WriteMultipleRegisters` | protocol/modbus/client.go:459-474 | refused, unsent, exactly outside the limits; failed exactly if no attempt is answered; otherwise the addressed registers of the store have the values asked for |
| `ModbusClient.Client.ReadWriteMultipleRegisters` | protocol/modbus/client.go:479-494 | refused, unsent, exactly outside the limits; failed exactly if no attempt is answered; otherwise the written registers have their values and the answer is read from the written map |
| `ModbusClient.Client.ReadDataPoint` | protocol/modbus/client.go:181-238 | a point that can be read gives its direct value in the memory at that moment, or a network error exactly if no attempt is answered; this is the direct read the clustering theorems refer to |
| `Monitor.StepSafe` | monitor/monitor.go:146-286 | every step keeps: no panic, the wait group counts the running goroutines, registered subscribers have open channels, no buffer is exceeded, the events channel closes only when all goroutines have returned |
| `MonitorOrder.StepInOrder` | monitor/monitor.go:265-286 | every step keeps the per-subscription order in every channel |
| `Monitor.NoneLive` | monitor/monitor.go:195-196 | when the wait group reaches zero every polling goroutine has returned |
| `Monitor.NeverPanics` | monitor/monitor.go:177-262 | in every interleaving, a Close between Stop's removal and its stopping included, nothing is sent on a closed channel and no channel is closed twice: neither the monitor's, nor a subscriber's, nor a subscription's stop and done channels |
| `Monitor.CloseLeavesNothingOpen` | monitor/monitor.go:177-205 | after Close all goroutines have returned, the events channel is closed, and every subscriber's channel is closed or its Done is about to close it |
| `Monitor.SilentAfterClose` | monitor/subscriber.go:39-70 | after Close nothing more is offered to any channel and nothing is added, however the run goes on |
| `MonitorOrder.ReceivedInOrder` | monitor/monitor.go:265-286 | every channel holds, for each subscription, a strictly increasing sequence of the events that subscription emitted |
| `Monitor.LostOnlyWhenFull` | monitor/monitor.go:273-285 | in every run a channel holds at most its capacity unreceived, lost exactly as many offered events as found it full, and lost none if and only if it took all |
| `MonitorLoss.PeakIsHighest` | monitor/monitor.go:273-285 | the peak of a schedule is the maximum, over its beginnings, of sends minus receives on the channel, the events channel or a subscriber's |
| `MonitorLoss.LostIsExcess` | monitor/monitor.go:281-285 | in every run the events channel has lost exactly as many events as that peak exceeds the buffer, and holds sends minus receives minus these |
| `MonitorLoss.EventTakenIff` | monitor/monitor.go:281-285 | after any run the next event sent is taken if and only if it does not raise sends minus receives above both the buffer and the peak so far |
| `MonitorLoss.EventsCarriesAllIff` | monitor/monitor.go:123-128 | until Close every event not still being emitted has been offered; all offered events are carried if and only if each send finds fewer than the buffer's size of earlier sends not yet received |
| `MonitorLoss.UnreadIsLost` | monitor/monitor.go:281-285 | for every buffer and every n, one subscription that emits n events more than the buffer holds, with nobody receiving, loses exactly n |
| `MonitorLoss.SubscriberLosesExcess` | monitor/monitor.go:147-165 | a new subscriber is registered and open with the buffer asked for, or 64, and however the run goes on loses exactly as many events as its sends minus receives, at their highest, exceed it |
| `MonitorStop.StoppedCanLeave` | monitor/monitor.go:246-262 | in every run a goroutine whose subscription was stopped, or whose monitor is closing, can return as soon as it is not emitting |
| `MonitorStop.NothingNewAfterStop` | monitor/monitor.go:265-270 | in every run, once Close has begun, no event begun later is offered to the events channel or sent to a subscriber |
| `MonitorOverlap.StepTimed` | monitor/monitor.go:272-279 | every step keeps: whatever stands before an event in a subscriber's channel took the read lock before that event's broadcast released it |
| `MonitorOverlap.PrecedingComesFirst` | monitor/monitor.go:272-279 | no subscriber sees one event before another whose broadcast was over before its own began |
| `MonitorOverlap.OrdersDifferOnlyInOverlap` | monitor/monitor.go:272-279 | two subscribers see two events in opposite orders only if these are of different subscriptions and their broadcasts overlap |
| `MonitorOverlap.NoCommonOrder` | monitor/monitor.go:272-279 | a run in which two subscribers receive two overlapping broadcasts in opposite orders |
| `Reconnecting.ReconnectingTransport.constructor` | transport/reconnecting.go:27-34 | no connection, not closed |
| `Reconnecting.ReconnectingTransport.GetConn` | transport/reconnecting.go:52-87 | whatever others do between the fast and the slow path: with none current by then the dialled connection is stored, returned, and recorded with its hook; a current one is returned as it is; nothing once closed |
| `Reconnecting.ReconnectingTransport.SlowConn` | transport/reconnecting.go:66-87 | the re-check under the write lock: open and unconnected, the dialled connection becomes current, is returned and fires the connect hook; otherwise nothing changes |
| `Reconnecting.ReconnectingTransport.ResetConn` | transport/reconnecting.go:100-114 | if the caller holds the current connection, it is closed, none is current and the disconnect hook fires; otherwise nothing changes |
| `Reconnecting.ReconnectingTransport.CloseTransport` | transport/reconnecting.go:118-137 | afterwards closed with none current; the connection it found, if any, is closed and its disconnect hook fired, and a second call changes nothing |
| `Reconnecting.EveryRun` | transport/reconnecting.go:52-137 | in every run each connection is opened and closed at most once, only the current one is open, and connect and disconnect hooks alternate, the last telling whether a connection is held |
| `Reconnecting.ClosedForGood` | transport/reconnecting.go:118-137 | once closed, no connection is open and nothing is opened, closed or fired again |
| `Reconnecting.StaleResetIsHarmless` | transport/reconnecting.go:100-114 | a closed connection never becomes current again, so a Reset that still holds it changes nothing, however late |
| `Reconnecting.LogIsExact` | transport/reconnecting.go:52-137 | in every run the connections opened are exactly those dialled by a Conn that found the transport open and unconnected, those closed exactly the ones a matching Reset or Close found current, and it is closed exactly if Close was called |
| `SlcAddress.LettersInverse` | protocol/ethernetip/pccc/frame.go:33-61 | the two searches of the file-type table are inverse to each other |
| `SlcAddress.FieldsInjective` | protocol/ethernetip/pccc/address.go:296-336 | no two named fields of a file type denote the same word and bit |
| `SlcAddress.FieldNameFor` | protocol/ethernetip/pccc/address.go:365-376 | the field name found does not depend on the order in which the table is visited |
| `SlcAddress.SplitLeadingLetters` | protocol/ethernetip/pccc/address.go:214-220 | the loop cuts off exactly the leading letters |
| `Text.IsAllDigits` | protocol/ethernetip/pccc/address.go:230-240 | true exactly on a non-empty run of digits |
| `SlcAddress.ParseAddress` | protocol/ethernetip/pccc/address.go:67-180 | the imperative parser, with its loops and checks in order, computes the specification that the round trips are about |
| `SlcAddress.PrintAddress` | protocol/ethernetip/pccc/address.go:37-62 | the string builder yields the canonical text |
| `SlcAddress.PrintThenParse` | protocol/ethernetip/pccc/address.go:67-179 | the text of a well-formed address parses to that address |
| `SlcAddress.ParsedIsWellFormed` | protocol/ethernetip/pccc/address.go:67-179 | whatever the parser accepts is well-formed |
| `SlcAddress.RoundTripIff` | protocol/ethernetip/pccc/address.go:37-179 | printing and parsing gives an address back if and only if it is well-formed: known type, numbers in range, fixed file number, and a word and bit that the suffix syntax can name |
| `SlcAddress.Canonical` | protocol/ethernetip/pccc/address.go:35-36 | every accepted spelling parses like its canonical form |
| `SlcAddress.PrintInjective` | protocol/ethernetip/pccc/address.go:37-62 | different well-formed addresses print differently |
| `SlcAddress.UnnamedTimerBit` | protocol/ethernetip/pccc/address.go:157-175 | a timer bit without a name prints as a text that does not parse back |
| `SlcAddress.DocumentedSpellings` | protocol/ethernetip/pccc/address.go:64-66 | for all numbers in range, the documented forms for a file element, a bit, a named timer field and the status file without its number spell the documented addresses |
| `SlcAddress.TimerSpellings` | protocol/ethernetip/pccc/address.go:297-303 | T4:0.PRE and the like: each of the five timer fields spells its word or bit, for all file and element numbers |
| `SlcAddress.CounterSpellings` | protocol/ethernetip/pccc/address.go:310-319 | likewise each of the eight counter fields |
| `SlcAddress.ControlSpellings` | protocol/ethernetip/pccc/address.go:326-337 | likewise each of the ten control fields |
| `SlcAddress.FileSpellings` | protocol/ethernetip/pccc/address.go:258-269 | every file type is spelt by its letter, for all numbers; output, input and status are in files 0, 1 and 2 |
| `SlcAddress.BitSpellings` | protocol/ethernetip/pccc/address.go:274-281 | in the six word-sized types every bit is spelt by a slash and its number |
| `SlcAddress.NoBits` | protocol/ethernetip/pccc/address.go:271-281 | no bit of a float, string or ASCII file is a well-formed address |
| `SlcAddress.ParseIgnoresCase` | protocol/ethernetip/pccc/address.go:64-72 | texts equal up to case parse alike |
| `SlcAddress.ParseIgnoresBlanks` | protocol/ethernetip/pccc/address.go:64-72 | blanks around an address do not matter |
| `Epath.AddSymbol` | protocol/ethernetip/cip/path.go:150-158 | appends the symbol segment, padded to a word, its length cut to a byte |
| `Epath.AddMember` | protocol/ethernetip/cip/tag.go:148-161 | appends the shortest of the three member formats |
| `Epath.WordAligned` | protocol/ethernetip/cip/path.go:147-158 | every encoded path is a whole number of words |
| `Epath.DecodeIff` | protocol/ethernetip/cip/path.go:150-158 | an independent decoder reads a path back exactly when no name exceeds 255 bytes |
| `WireLayouts.SymbolLayout` | protocol/ethernetip/cip/path.go:150-158 | a symbol segment byte by byte |
| `WireLayouts.MemberLayout` | protocol/ethernetip/cip/tag.go:148-161 | the three member segments byte by byte, each for its range of numbers |
| `TagPath.SplitSegments` | protocol/ethernetip/cip/tag.go:74-101 | fails exactly on unbalanced brackets; otherwise the pieces between the dots outside brackets |
| `TagPath.JoinSplit` | protocol/ethernetip/cip/tag.go:71-101 | joining the pieces with dots gives back the tag |
| `TagPath.SplitWhole` | protocol/ethernetip/cip/tag.go:71-101 | every piece of a balanced tag is balanced and has no dot outside brackets |
| `TagPath.SplitJoin` | protocol/ethernetip/cip/tag.go:71-101 | the pieces are the only such list: a tag joined from whole segments splits into them |
| `TagPath.ParseTagSegment` | protocol/ethernetip/cip/tag.go:106-131 | name and indices of a segment, or failure on an unclosed bracket or a bad index |
| `TagPath.ParseTagPath` | protocol/ethernetip/cip/tag.go:33-69 | accepts exactly the tags that spell a path, and encodes exactly what they spell |
| `TagPath.TagDecodes` | protocol/ethernetip/cip/tag.go:33-69 | the path of an accepted tag is word-aligned and decodes to exactly the names and indices spelled, if and only if no name exceeds 255 bytes |
| `TagRequests.ReadTagArrivesIff` | protocol/ethernetip/client.go:305-323 | the server sees the read request and decodes its path to what the tag spells if and only if no name exceeds 255 bytes and the path 510 |
| `TagRequests.WriteTagArrivesIff` | protocol/ethernetip/cip/services.go:78-99 | likewise for a write, if and only if in addition path and data together do not exceed 4074 bytes |
| `TagRequests.TagLayout` | protocol/ethernetip/cip/services.go:63-99 | the two tag requests byte by byte: service, path, type, count, data |
| `TagRequests.ReadTagElements` | protocol/ethernetip/client.go:305-328 | a zero count or a text that is no tag is refused unsent; otherwise the exchange of the tag's request |
| `TagRequests.ReadTagIsAnswered` | protocol/ethernetip/client.go:302-328 | for a tag that arrives, from text to device and back: the client gets what the device holds under the names and indices the tag spells, if and only if that can be carried back |
| `TagRender.WrittenIsRead` | protocol/ethernetip/cip/tag.go:9-32 | every list of names and indices that can be written as a tag is read back as meant |
| `TagRender.TagMeans` | protocol/ethernetip/cip/tag.go:33-70 | every list of names and numbers with indices that begins with a name, written with dots, brackets and commas, is read as a symbol for each name and a member for each number and index, in order |
| `TagRender.BitOfTag` | protocol/ethernetip/cip/tag.go:54-60 | a name, a dot and a number is that symbol and that member, for all names and numbers |
| `TagRender.FieldOfTag` | protocol/ethernetip/cip/tag.go:61-63 | two names with a dot are two symbols |
| `TagRender.NumberTag` | protocol/ethernetip/cip/tag.go:54-63 | a tag that is a number alone is a symbol, not a member |
| `TagRender.IndexedTag` | protocol/ethernetip/cip/tag.go:65-67 | the indices of a name are members in the order written |
| `TagRender.IndexBlanks` | protocol/ethernetip/cip/tag.go:119-127 | blanks around an index do not matter |
| `ByteReader.Reader.ReadSome` | protocol/ethernetip/cip/message.go:52-55 | a short read leaves the rest of the buffer zero, and fails at the end of the input even for no bytes |
| `CipMessage.EncodeRequest` | protocol/ethernetip/cip/message.go:20-37 | service, path size in words, path, data |
| `CipMessage.DecodeRequest` | protocol/ethernetip/cip/message.go:41-67 | the reader-driven decoder computes the specification, short paths zero-filled |
| `CipMessage.RequestRoundTrip` | protocol/ethernetip/cip/message.go:20-67 | a request survives if and only if its path has an even length of at most 510 bytes and path and data are not both empty |
| `CipMessage.EncodeResponse` | protocol/ethernetip/cip/message.go:83-94 | the fixed fields, the extended status words and the data in order |
| `CipMessage.DecodeResponse` | protocol/ethernetip/cip/message.go:97-133 | the reader-driven decoder computes the specification |
| `CipMessage.ResponseRoundTrip` | protocol/ethernetip/cip/message.go:83-133 | a response survives if and only if its size field counts its extended status words |
| `Cpf.EncodePacket` | protocol/ethernetip/eip/cpf.go:78-89 | count and items in order; an item of length zero writes no data |
| `Cpf.DecodePacket` | protocol/ethernetip/eip/cpf.go:93-130 | the decoding loop computes the specification: exactly count items or failure |
| `Cpf.PacketRoundTrip` | protocol/ethernetip/eip/cpf.go:43-130 | a packet survives, whatever follows it, if and only if its count and length fields are true |
| `Cpf.FindItem` | protocol/ethernetip/eip/cpf.go:134-141 | the first item of the type, or none when there is none |
| `Cpf.WrapMessage` | protocol/ethernetip/session.go:97-113 | the two-item packet behind six zero bytes |
| `Cpf.EnvelopeRoundTrip` | protocol/ethernetip/session.go:137-155 | an unconnected message crosses the envelope and the 16-bit encapsulation length if and only if it has at most 65519 bytes |
| `Cpf.ServerReceive` | protocol/ethernetip/server.go:391-409 | prefix check, packet decoding, item search and request decoding compose to the specification |
| `Cpf.RequestCrosses` | protocol/ethernetip/server.go:391-409 | behind a 16-bit length, the request decoder sees exactly the request the client encoded if and only if the request is sendable and fits |
| `WireLayouts.WrapLayout` | protocol/ethernetip/session.go:97-113 | the packet around a message byte by byte |
| `WireLayouts.RequestLayout` | protocol/ethernetip/cip/message.go:20-37 | a whole unconnected request byte by byte |
| `WireLayouts.ResponseLayout` | protocol/ethernetip/cip/message.go:83-94 | a response with at most one extended status word byte by byte |
| `Cpf.ResponseCrosses` | protocol/ethernetip/server.go:416-421 | the client sees exactly the response the server encoded if and only if its size field is right and it fits |
| `Encapsulation.Send` | protocol/ethernetip/conn.go:65-91 | the 24 header bytes, the length cut to 16 bits, then the data |
| `Encapsulation.Receive` | protocol/ethernetip/conn.go:95-110 | header fields and as much data as the length says, or failure |
| `Encapsulation.PacketRoundTrip` | protocol/ethernetip/conn.go:65-110 | a packet arrives whole if and only if it has fewer than 65536 bytes of data |
| `WireLayouts.HeaderLayout` | protocol/ethernetip/conn.go:65-91 | the encapsulation header field by field, numbers low byte first |
| `WireLayouts.CommandAnswers` | protocol/ethernetip/server.go:307-373 | what each command is answered with and which session the connection then has, for all eight kinds of command |
| `Encapsulation.HandleSendRRData` | protocol/ethernetip/server.go:391-422 | decoding, dispatch and encoding compose to the specification; any error, the dispatcher's included, gives none |
| `Encapsulation.ServerLoopBody` | protocol/ethernetip/server.go:279-373 | for every packet: over 4096 bytes or unregistering ends the connection, registering draws the next handle, the data commands need the connection's own non-zero session, errors and unknown commands get their status, and command and sender context are echoed |
| `Encapsulation.RequestArrivesIff` | protocol/ethernetip/server.go:289-304 | the server takes the packet and sees exactly the client's request if and only if the request is sendable and has at most 4080 bytes |
| `Encapsulation.SendCIPRequest` | protocol/ethernetip/session.go:97-176 | over the wire and back, the exchange computes the specification and leaves the sessions alone |
| `Encapsulation.ExchangeIsDispatch` | protocol/ethernetip/session.go:160-176 | within a registered session such a request gets an error if the dispatcher has one, and otherwise exactly the object's response if and only if that can be carried back |
| `Encapsulation.WrongSessionIsRefused` | protocol/ethernetip/server.go:334-337 | on any other handle, or with no session registered, the request gets an error |
| `Sessions.StepInv` | protocol/ethernetip/server.go:311-319 | every step of any connection keeps: the counter is the number of registrations modulo 2^32, and each open connection's session is that of its last registration |
| `Sessions.ServedIff` | protocol/ethernetip/server.go:334-342 | in every run, unconnected data is served if and only if the connection has registered and the handle is that of its last registration, the k-th of all, and not zero |
| `Sessions.HandlesCollideIff` | protocol/ethernetip/server.go:312 | two open, registered connections have the same handle if and only if their registrations are a multiple of 2^32 apart |
| `Sessions.Register` | protocol/ethernetip/session.go:43-76 | over the wire, the client gets the handle the server drew and set as the connection's session |
| `Sessions.RegisteredIsServedIff` | protocol/ethernetip/session.go:43-76 | whatever other connections do meanwhile, a registered client's requests are answered by the addressed object if and only if its handle is not zero, that is, its registration was no multiple of 2^32 |
| `Sessions.ZeroHandleIsRefused` | protocol/ethernetip/server.go:311-337 | a run with 2^32 registrations, the last of which is granted handle zero and refused every request |
| `ConnectionManager.StepInv` | protocol/ethernetip/objects/connmgr/connmgr.go:126-152 | every open and close keeps: each key is its entry's ID, no two entries share a triad, every ID was issued |
| `ConnectionManager.OneEntryPerTriad` | protocol/ethernetip/objects/connmgr/connmgr.go:128-151 | in every run no two table entries share a triad and each key is its entry's target ID |
| `ConnectionManager.IdsDistinct` | protocol/ethernetip/objects/connmgr/connmgr.go:141-142 | no ID is issued twice within 2^32 grants, across the counter wrap |
| `ConnectionManager.GrantKeepsOthersIff` | protocol/ethernetip/objects/connmgr/connmgr.go:141-151 | a grant keeps all other connections if and only if its ID is not still in use |
| `ConnectionManager.ReuseReplaces` | protocol/ethernetip/objects/connmgr/connmgr.go:141-151 | for any two triads a run of opens and closes with 2^32 grants that leaves exactly the first held, after which granting the second replaces it |
| `ConnectionManager.HeldIsOpenedAndNotClosed` | protocol/ethernetip/objects/connmgr/connmgr.go:70-255 | in every run of fewer than 2^32 grants the connections held are exactly those opened and not closed since |
| `ConnectionManager.OpenRoundTrip` | protocol/ethernetip/objects/connmgr/types.go:155-174 | the Forward_Open parser inverts Encode if and only if the path is non-empty, of even length and at most 510 bytes |
| `ConnectionManager.CloseRoundTrip` | protocol/ethernetip/objects/connmgr/types.go:177-188 | the Forward_Close parser inverts Encode under the same condition |
| `WireLayouts.OpenLayout` | protocol/ethernetip/objects/connmgr/types.go:155-174 | a Forward_Open request field by field, numbers low byte first |
| `WireLayouts.GrantLayout` | protocol/ethernetip/objects/connmgr/connmgr.go:158-181 | its reply field by field |
| `ConnectionManager.EncodeGrant` | protocol/ethernetip/objects/connmgr/connmgr.go:158-181 | the reply fields in wire order |
| `ConnectionManager.GrantIsUnderstood` | protocol/ethernetip/io.go:245-253 | the originator reads off the ID the table holds its connection under, its own triad, and the interval it asked for, or its default if it asked for zero |
| `ConnectionManager.DecodeOpen` | protocol/ethernetip/objects/connmgr/connmgr.go:71-124 | the field-by-field reader computes the specification |
| `ConnectionManager.DecodeClose` | protocol/ethernetip/objects/connmgr/connmgr.go:190-219 | the field-by-field reader computes the specification |
| `ConnectionManager.ConnectionManager.constructor` | protocol/ethernetip/objects/connmgr/connmgr.go:55-64 | an empty table and the counter at 0x80000000 |
| `ConnectionManager.ConnectionManager.Search` | protocol/ethernetip/objects/connmgr/connmgr.go:129-139 | finds an entry with the triad if and only if there is one |
| `ConnectionManager.ConnectionManager.Add` | protocol/ethernetip/objects/connmgr/connmgr.go:141-151 | exactly one entry is added, under the next ID, with the originator's ID and the triad of the request; the invariant is kept |
| `ConnectionManager.ConnectionManager.HandleForwardOpen` | protocol/ethernetip/objects/connmgr/connmgr.go:70-182 | a malformed request or a triad in use changes nothing; otherwise one entry is added under the next ID, the callback gets that entry and the request, and the reply carries the ID and the request's triad and rates |
| `ConnectionManager.ConnectionManager.HandleForwardClose` | protocol/ethernetip/objects/connmgr/connmgr.go:189-255 | removes exactly the entry with the triad, if any, hands it to the callback, and echoes the triad |

## Left out

- Sockets, dialling, deadlines, accept loops, UDP: losses and failures are free choices of the model, time is an input.
- Byte-stream resynchronisation after a timeout in the middle of a frame: frames are delivered whole, or the connection ends.
- ModbusServer.Server.Dispatch: handlers for function codes other than the nine data functions are a parameter and are taken not to touch the store; device identification is one of them and is modelled in DeviceId.
- ModbusClient.Client.Exchange: speaks of the nine data functions, whose responses are bounded; a custom handler may build a response too long to frame.
- ModbusServer.MemoryStore.ReadBits: one member for the two bit areas, as ReadRegisters is for the two register areas; the four methods of the source differ only in the map they read.
- Several clients of one server at once: the store's methods are single steps under its lock, and the end-to-end results are about one client's calls.
- ClusteringReader.ClusteringReader.Read: time stands still within one call, and an inner reader that returns no value and no error is not modelled; overlapping Reads are covered by ClusterFlights and FlightOrigins without the cache, and by ClusterCache and CacheHistory with it.
- ClusteringReader.ClusteringReader.ReadWindow: one caller; concurrent callers of a window are the transition system of ClusterFlights.
- DataPoints.ClusterExtract: a block's capacity is taken to be its length, as it is for the blocks the client makes; a Go slice may reach past the length of a block with spare capacity.
- ClusterPlan.SortByAddr: the order of points with equal addresses is left open, as sort.Slice leaves it open.
- ClusterPlan.BuildWindows: groups by the four Modbus areas in the order of their keys; other clusterable point types are left out.
- Unregister compares points as values, as the interface comparison in the source does.
- Connection: a caller injecting one socket into several generations, and pools shared between connections, are left out; each generation dials its own socket.
- Monitor.NeverPanics: polling, change detection, handlers and timers are left out, and so is deadlock, such as calling Close from a handler.
- MonitorOverlap.OrdersDifferOnlyInOverlap: one way only, because overlapping broadcasts may also arrive in one order.
- Reconnecting.EveryRun: the dialler is taken to return connections it has not returned before, and hooks that call back into the transport are left out.
- SlcAddress.RoundTripIff: text is ASCII; Unicode case folding and blanks are left out, and error texts are reduced to kinds.
- TagPath.ParseTagPath: blanks around an index are the ASCII ones.
- Encapsulation.ServerLoopBody: the objects behind the dispatcher, the handler of connected data (SendUnitData) and the encoded identity and service lists are parameters.
- TagRequests.ReadTagElements: one exchange within a session; reconnecting and retrying around it is the transport of Reconnecting.
- ConnectionManager.ConnectionManager.HandleForwardOpen: Large_Forward_Open is left out, and callbacks are recorded calls that do not call back.
- PCCC frames, reflection-based CIP marshalling, the runtime and I/O packages, discovery, logging and display strings: fixed layouts and formatting.
