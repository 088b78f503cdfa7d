# A verified model of the distributed range-query engine

A gateway scatters a range query to the owners of a sharded taxi table, pulls the
matching rows back in chunks over unary calls, and hands them to one client. This
project models that engine in Dafny and proves what it promises. The files follow the
program's parts; `Basics` holds what several of them share.

**The pull protocol** (`Gather`, `GatherSafety`, `GatherProgress`, `GatherCompletes`,
`GatherEdge`, `GatherLosses`, `SizedPulls`, `Drain`, `RequestState`, `Client`). One
request is a step machine with one leg per data owner; leg 0 is the gateway's own shard.
Every mutex-protected block is one atomic step, the store to the done flag is a step of
its own, and a pull is looked up, drained, reads the flag, re-checks the deque and
replies in separate steps. Calls in flight are part of the state: a call that times out
goes on running at the owner while the gateway retries, and what its reply carries is
lost. The results hold for every run, that is, for every interleaving. A row is named by
its position in its owner's match list, and `Flow` lists, from the client back to the
producer's cursor, all rows of a leg that are still accounted for; `GatherLosses` says
where the others went. The class `RequestState` has the critical sections as methods
over its deques, maps and flags. Each is tied to the machine: the `...IsStep` methods
run one critical section on an object that represents a machine state and show that the
object then represents the state after the machine's step: what the gateway holds for
fetches, replies and errors, the owner's side for producers and pulls, and both for the
gateway's own producer (`Own...IsStep`). `TickIsRun` and `PullIsRun` show which runs of
steps a producer round and a pull are that nothing interrupts.

**Python owners** (`PyOwner`, `PyGather`). The Python producer keeps its position in
locals and locks once per row. `PyGather` interleaves its blocks with everything else
and proves that every such run is a run of the machine above (`IsGatherRun`), so the
results carry over, and that a query can be completed exactly when it does not wait for
a Python owner without rows (`PyEndsExactly`). `PyOwner` has the owner's record as a
class whose tick and pull are single methods; `TickIsSteps` and `PullIsSteps` say which
blocks they stand for.

**Overlay routing** (`Graphs`, `Bfs`, `Relay`, `Topology`, `Deployment`). Nodes are
numbered in the order of their names. The next-hop tables are characterised
independently of the search (the least neighbour on a shortest path), and forwarding
follows the nodes' own tables. `Deployment` goes from generated tables through the
printed and loaded file to forwarding by name.

**Pruning and search** (`Store`, `SortedPartition`, `Calendar`, `Routing`,
`RoutingSound`, `RoutingAsks`). Manifest routing, the min/max pre-filter, the parallel
scan and the bisect on the sorted copy are each compared with the plain filter.
Placement on the hash ring is stated by stripes, and `RoutingAsks` says for every scheme
exactly which owners are asked. The calendar is the proleptic Gregorian one, defined by
its month lengths.

**End to end** (`EndToEnd`). All of this together: the rows the client gets are, as a
multiset, the plain filter over the rows of every owner, including owners never asked.

**Loading** (`Lines`, `Loader`, `LoaderText`). The two-pass parallel loader, with pass 2
as a loop that lets any unfinished thread handle its next line. Reading fields of a line
is a parameter; `LoaderText` says what text it is given for a file of LF or CR LF lines.

**Flow control** (`Scheduler`, `Fairness`, `Shares`, `ChunkSizer`). The weighted
scheduler's regular states are positions on a wheel that lists every request as often as
its weight says. `Fairness` says whom a call serves, how long a request waits, and
exactly which schedules give everybody its share; `Shares` says which changes of
membership keep the share.

**Text formats** (`Json`, `JsonRoundTrip`, `OverlayText`, `Overlay`, `OverlayRoundTrip`,
`OverlayFile`, `OverlayDocument`, `OverlayForms`, `OverlayWritten`). The manifest reader
and the overlay loader, each with the printer it inverts. `OverlayForms` and
`OverlayWritten` are about files as people write them: block rows, quotes, padding,
comments, sections in any order.

## Hypotheses and findings

Results hold under hypotheses that the code's callers can check; where one is exact, an
if-and-only-if lemma says so.

- Exactly-once delivery is decided owner by owner. When no pull of an owner failed or
  timed out, whatever happened to the others, an asked owner's match list is delivered
  whole if and only if it is empty, or the forward was delivered and the owner
  registered the request (`ExactlyOnce`). The gateway looks only at the transport status
  of a forward and ignores `ack.accepted` (cpp/server/node.cpp:278-279), so an owner
  that refused the forward costs its rows without a trace. Under any faults, order and
  no-duplicates hold (`NothingTwice`).
- A time-out costs exactly the rows that the pull drained, before or after the gateway
  gave it up (`LossesExact`): the owner does not put them back, and the retry goes on
  behind them. If no pull of an asked and reached owner failed, the client has the
  owner's whole list if and only if no timed-out pull drained a row
  (`TimeoutsCostDrained`).
- "Last means empty" fails for the gateway's own shard when routing dropped that shard
  and it has two or more matches; `OwnShardEmptied` gives the exact condition.
- Month routing compares month numbers and swaps them. It is sound exactly for windows
  inside one calendar year or whose months are January and December
  (`MonthRoutingExact`); `WinterWindowLoses` is a window over a new year that loses a
  pickup.
- Hash routing clamps buckets at 0, so it can lose rows with negative hashed values. It
  loses none, under any ring and hash, exactly when the window is empty, or both its
  bounds are in negative buckets (then everybody is asked), or neither is; for an
  exclusive window the scaled bounds only have to be at least -1 (`HashRoutingExact`).
- The loader's row capacity is the newline count. An unterminated last row is kept only
  when the last chunk has a blank line (`TailRowKept`), so for such files the number of
  threads can change what is loaded (`ThreadCountMatters`). It cannot exactly when the
  text is newline-terminated, its last line is no valid row, or no line of it is blank
  (`ThreadCountInvisible`).
- A Python owner with an empty shard never reports the end of a request, so a query that
  asks and reaches one never ends, whatever times out, until a pull of that owner fails
  with another error than a time-out (`EmptyNeverEnds`). From any reachable state a run
  to the end without further faults exists if and only if every such owner has had a
  pull fail (`PyEndsExactly`), and from the start if and only if there is no such owner
  (`PyEndsFromStart`, `PyQueryCompletes`). A C++ owner with an empty partition answers
  NOT_FOUND, which the gateway treats as a failed owner; no row is lost by that.
- The scheduler's give-up returns the front of the queue, so a request without weight
  can be served while others have weight (`WeightlessServed`); `WeightlessPassedOver`
  says exactly when it is not.
- A removal from the scheduler can take a partly used entry from under the cursor; then
  the next round's share is wrong, and exactly then (`ShareAfterRemove`, with an input
  in `RemovalDisturbs`). Re-adding with another weight is treated in
  `ShareAfterReweight`. For every history of adds with positive weights, removals and
  calls, `FairWhenRegular` says exactly when the share is right from then on.
- The comment on `owners_hit` in proto/mini2.proto:88-91 speaks of owners that returned
  at least one row; the code counts every owner that answered at all
  (cpp/server/node.cpp:863-865), and so does the model.
- The JSON reader does not advance over a character that starts no token
  (`StuckOnUnknown`) and knows four escapes only (`EscapeOutsideSubset`). Damaged
  objects and arrays are no error: they read as what stands in front of the damage
  (`ObjectEnds`, `ArrayEnds`), and a comma in front of a closing bracket adds a null
  (`HoleReads`).
- The overlay loader takes a `#` inside quotes for a comment (`HashCuts`), as the note at
  cpp/common/overlay.cpp:30 grants. Lists of other than two names in the edges
  section, parts of a flow map and lines of a block without a colon, and deeper lines
  behind a flow row are skipped without notice (`EdgesThrough`, `FlowPiecesRead`,
  `RoutesRead`).

## Model

| member | source | states |
|---|---|---|
| `GatherSafety.RunInv` | cpp/server/node.cpp:315-874 | every reachable state, under every interleaving with lost replies, retries, refusals and failed owners, satisfies the protocol invariant; every owner without a fault so far satisfies the exact one, whatever happened to the others |
| `GatherSafety.NothingTwice` | cpp/server/node.cpp:566-572 | order under faults: delivered rows, then slot, live reply, deque and unproduced rows name matches in increasing order, so the client never gets a row twice or out of order; which rows are missing there is `LossesExact` |
| `GatherSafety.NothingLost` | cpp/server/node.cpp:761-779 | conservation, owner by owner: as long as no pull of the owner failed or timed out, that concatenation is its whole match list in every reachable state |
| `GatherSafety.ExactlyOnce` | cpp/server/node.cpp:394-413 | when the last chunk is reported and no pull of this owner failed or timed out: an eligible owner's match list has arrived whole and in order if and only if it is empty, or its forward was delivered and registered; otherwise nothing of it has |
| `GatherSafety.NothingFrom` | cpp/server/node.cpp:238-300 | a remote owner that was not asked, whose forward failed, that refused it or that has no partition gives nothing in any run |
| `GatherSafety.LastMeansEmpty` | cpp/server/node.cpp:394-424 | even when owners failed, the last chunk leaves no row at the gateway, provided routing kept the gateway's own shard or it has no match |
| `GatherSafety.DoneHoldsNothing` | cpp/server/node.cpp:807-872 | an owner is never marked done while its slot holds rows |
| `GatherSafety.Responders` | cpp/server/node.cpp:238-247 | responded owners are eligible ones; at the end an owner without faults has responded if and only if it is eligible and able to answer |
| `GatherSafety.BoundedMemory` | cpp/server/node.cpp:752-779 | in every reachable state a deque holds at most 8192 rows and the slots together at most (owners - 1) chunks |
| `SizedPulls.SizedMemory` | cpp/server/node.cpp:563-572 | when every pull is served with a size the owner's chunk sizer can decide on, and the first size is within the limits, a slot never exceeds its owner's max_rows, nor all slots together the largest one times the remote owners |
| `GatherSafety.LegStepFlow` | cpp/server/node.cpp:543-591 | one owner or prefetcher step leaves the leg's flow of rows as it is except for one stretch, and takes none unless it is a fault or serves an abandoned call; that the stretch is the rows of that call is part of `LossesExact` |
| `GatherSafety.FetchLegFlow` | cpp/server/node.cpp:365-401 | FetchChunk moves rows from a source to the client and loses none |
| `GatherSafety.StepInv` | cpp/server/node.cpp:734-874 | every producer, pull and prefetcher step keeps the invariant |
| `GatherSafety.FetchInv` | cpp/server/node.cpp:339-411 | FetchChunk keeps the invariant |
| `GatherLosses.LossesExact` | cpp/server/node.cpp:843-871 | what faults cost, in every state of every run: delivered rows, slot, live reply, deque, unproduced rows and the rows drained by pulls that timed out or failed are together, as a multiset, every match exactly once; there are as many such pulls as there were faults, and each cost at most one chunk |
| `GatherLosses.TimeoutsCostDrained` | cpp/server/node.cpp:850-854 | at the end, if no pull of an asked and reached owner failed, the client has all its matches but those drained by pulls that timed out: it has the whole list in order if and only if no such pull drained a row, and each time-out costs at most one chunk |
| `GatherLosses.OwnersForget` | cpp/server/node.cpp:589-589 | at the end every asked and reached owner none of whose pulls failed has dropped the request |
| `GatherProgress.FetchProgress` | cpp/server/node.cpp:361-411 | a FetchChunk that passes its wait returns a row or the last chunk |
| `GatherProgress.FetchesPaid` | cpp/client/client.cpp:193-272 | a run has at most one fetch more than delivered rows |
| `GatherProgress.FetchBound` | cpp/client/client.cpp:193-272 | termination bound, faults or not: at most one fetch more than there are matches over all owners |
| `GatherProgress.NeverStuck` | cpp/server/node.cpp:361-363 | until the last chunk, every run, with whatever faults so far, can take another step that is no fault |
| `GatherCompletes.CanComplete` | cpp/server/node.cpp:315-438 | every run, with whatever faults so far, has a fault-free continuation that ends in the last chunk |
| `GatherCompletes.HasCompleteRun` | cpp/server/node.cpp:199-438 | every configuration has a complete fault-free run, also when forwards were refused or partitions are empty |
| `GatherCompletes.LegWorks` | cpp/server/node.cpp:734-874 | an owner that keeps FetchChunk waiting has a step that strictly reduces the work left |
| `GatherCompletes.FetchWorks` | cpp/server/node.cpp:365-411 | FetchChunk ends the request or strictly reduces the work left |
| `GatherEdge.Strands` | cpp/server/node.cpp:240-242 | a concrete run: with its own shard routed away and two matches in it, the gateway reports the last chunk while still holding a row |
| `GatherEdge.OwnShardEmptied` | cpp/server/node.cpp:394-411 | every run that ends has emptied the gateway's own shard if and only if routing kept it or it has at most one match |
| `Drain.RoundRobinComplete` | cpp/server/node.cpp:365-392 | drained to the end, the rounds emit every row of every source in order and nothing else |
| `Drain.TakeFills` | cpp/server/node.cpp:365-392 | one drain emits exactly min(max_rows, rows buffered) rows |
| `Drain.TakeIsFifo` | cpp/server/node.cpp:365-392 | a drain takes from the front of each source |
| `Drain.TakeIsBalanced` | cpp/server/node.cpp:365-392 | for some k each source gives min(length, k) rows, or min(length, k + 1) on a prefix of the source order |
| `RequestStates.RequestState.constructor` | cpp/server/node.cpp:611-651 | the request's initial state as registered and marked by SubmitQuery |
| `RequestStates.RequestState.PushRows` | cpp/server/node.cpp:763-777 | pushes the next matches in order, up to the limit or until the deque holds 8192 |
| `RequestStates.RequestState.ProduceTick` | cpp/server/node.cpp:743-789 | one producer round: the next 256 matches per unit of weight, or those left, or those that fill the deque to 8192; and when the done flag rises |
| `RequestStates.RequestState.ServePull` | cpp/server/node.cpp:563-591 | an undisturbed pull hands out the front of the deque; last only for an empty reply after everything was produced |
| `RequestStates.RequestState.ReceiveChunk` | cpp/server/node.cpp:863-871 | a reply fills the owner's slot, counts it as responded, and stops the prefetcher exactly on last |
| `RequestStates.RequestState.DrainRound` | cpp/server/node.cpp:366-391 | one drain round is the reference round, cut when the chunk is full |
| `RequestStates.RequestState.Drain` | cpp/server/node.cpp:365-392 | the drain emits Take of the sources and leaves exactly the rest, with row counts kept per owner |
| `RequestStates.RequestState.Promote` | cpp/server/node.cpp:394-401 | which owners a fetch marks done |
| `RequestStates.RequestState.FetchChunk` | cpp/server/node.cpp:339-413 | drain, promotion and the last flag together, over the object's maps and deques |
| `RequestStates.FetchIsStep` | cpp/server/node.cpp:339-413 | the object's FetchChunk is the machine's Fetch event: same rows, same state, same last flag |
| `RequestStates.ReceiveIsStep` | cpp/server/node.cpp:863-871 | the object's reply block is the machine's Receive step: on an object that represents a state it leaves one that represents the state after it |
| `RequestStates.FailIsStep` | cpp/server/node.cpp:849-862 | the error block is the machine's Fail step, or its Refuse step for NOT_FOUND: same state, and the rows the gateway holds of all owners are untouched |
| `RequestStates.TimeoutIsStep` | cpp/server/node.cpp:850-854 | a time-out does nothing to the gateway's object, and that is the machine's Timeout step |
| `RequestStates.GatewayLeavesOwner` | cpp/server/node.cpp:820-871 | no step of a prefetcher, time-outs and failures included, touches the owner's deque, cursor, done flag or registration |
| `RequestStates.BeginIsStep` | cpp/server/node.cpp:743-765 | the producer's check goes on exactly when the machine's BeginTick is enabled, with the same limit |
| `RequestStates.PushIsStep` | cpp/server/node.cpp:767-777 | one locked push is the machine's Push step |
| `RequestStates.FinishIsStep` | cpp/server/node.cpp:778-779 | storing the cursor and the done flag is the machine's FinishTick step |
| `RequestStates.OwnBeginIsStep` | cpp/server/node.cpp:743-765 | at the gateway: the check of its own producer is the BeginTick event of leg 0, and the object represents the whole state after it |
| `RequestStates.OwnPushIsStep` | cpp/server/node.cpp:767-777 | at the gateway: one locked push of its own producer is the Push event of leg 0, with the whole state represented before and after |
| `RequestStates.OwnFinishIsStep` | cpp/server/node.cpp:778-779 | at the gateway: the two stores are the FinishTick event of leg 0, with the whole state represented before and after |
| `RequestStates.OwnFetchIsStep` | cpp/server/node.cpp:339-413 | at the gateway: FetchChunk keeps the object in step with its own producer as well |
| `RequestStates.DrainIsStep` | cpp/server/node.cpp:565-572 | the locked drain of a pull is the machine's DrainCall step, with the rows in the call |
| `RequestStates.ReadDoneIsStep` | cpp/server/node.cpp:573-573 | reading the flag outside the lock is the machine's ReadDone step |
| `RequestStates.RecheckIsStep` | cpp/server/node.cpp:574-578 | the second locked block decides the last flag as the machine's Recheck step does |
| `RequestStates.TickIsRun` | cpp/server/node.cpp:743-789 | ProduceTick is a run of the machine's producer steps, and is idle exactly when BeginTick is not enabled |
| `RequestStates.PullIsRun` | cpp/server/node.cpp:563-591 | ServePull is the run DrainCall, ReadDone, Recheck of the machine, with the same rows and last flag |
| `RequestStates.TickIsSteps` | cpp/server/node.cpp:743-789 | an uninterrupted producer tick is a run of machine steps, with the cursor, deque and flag it ends with |
| `RequestStates.AllAfterFetch` | cpp/server/node.cpp:394-411 | after a fetch the object represents the machine state after the Fetch event |
| `Graphs.BuildAdj` | py/topology/generator.py:220-227 | the adjacency lists hold exactly the given undirected edges, each neighbour once |
| `Graphs.CanonicalUnique` | py/topology/generator.py:195-217 | at most one table is canonical for a graph and a source |
| `Bfs.BfsNextHop` | py/topology/generator.py:195-217 | the table has exactly the reachable nodes, and each entry is the least neighbour of the source on a shortest path |
| `Bfs.Seed` | py/topology/generator.py:200-208 | the first loop queues the source's neighbours in order, each its own first hop |
| `Bfs.Visit` | py/topology/generator.py:211-216 | visiting a neighbour keeps the queue's levels and first hops non-decreasing |
| `Bfs.ExpandNode` | py/topology/generator.py:209-216 | expanding a node labels its unvisited neighbours canonically |
| `Topology.ValidateConnectivity` | py/topology/generator.py:230-241 | reports exactly the nodes that are not reachable from the first one |
| `Topology.Generate` | py/topology/generator.py:260-274 | builds the adjacency lists, reports exactly the unreachable nodes, and if there are none returns a canonical table for every node |
| `Topology.GeneratedOverlaysDeliver` | py/topology/generator.py:260-274 | on a generated overlay of at most nine nodes a forward reaches every other node |
| `Relay.HopDrops` | py/topology/generator.py:195-217 | each relay drops the distance to the target by exactly one |
| `Relay.ForwardFate` | cpp/server/node.cpp:493-541 | a forwarded query is accepted by its target if and only if its ttl exceeds the distance; otherwise the ttl expires, and it is never misrouted |
| `Relay.ForwardNoRoute` | cpp/server/node.cpp:513-521 | a forward to an unreachable target is refused |
| `Relay.SubmitFate` | cpp/server/node.cpp:256-264 | the gateway's forward with ttl 8 is accepted if and only if the owner is at most 8 hops away |
| `Relay.PullArrives` | cpp/server/node.cpp:543-557 | a relayed pull is at its target after exactly as many hops as the distance |
| `Relay.PullLoopFree` | cpp/server/node.cpp:543-557 | no node sees a relayed pull twice |
| `Relay.DistBound` | py/topology/generator.py:230-241 | no distance exceeds the number of nodes minus one |
| `Relay.NineNodesSuffice` | cpp/server/node.cpp:256-264 | on every overlay of at most nine nodes every reachable owner accepts |
| `Relay.ChainLimit` | cpp/server/node.cpp:256-264 | on a chain the far end accepts if and only if there are at most nine nodes |
| `Routing.EligibleOwners` | cpp/common/routing.cpp:258-359 | the owners kept, for every scheme, with all early returns |
| `Routing.KeepByRange` | cpp/common/routing.cpp:274-287 | owners whose distance range meets the window, or that have none |
| `Routing.KeepByZone` | cpp/common/routing.cpp:288-305 | owners with a zone in the truncated window, or without zones |
| `Routing.KeepByMonth` | cpp/common/routing.cpp:340-357 | owners with a month between the window's (swapped) month numbers |
| `Routing.KeepByHash` | cpp/common/routing.cpp:306-339 | owners of the enumerated buckets, with the clamp at 0, the cap, negative vnode counts and the empty fallback |
| `Routing.CollectOwners` | cpp/common/routing.cpp:326-335 | the saturation break loses no owner |
| `Routing.SelectConcat` | cpp/common/routing.cpp:258-359 | pruning keeps the order of the owners |
| `RoutingSound.BucketEnumerated` | cpp/common/routing.cpp:317-328 | the bucket of a value inside the window is enumerated if and only if it is not negative |
| `RoutingSound.BucketIs` | cpp/common/routing.cpp:317-320 | a value's bucket is the whole number between zero and the scaled value that is nearest to the scaled value |
| `RoutingSound.StripeIs` | cpp/common/routing.cpp:327-333 | the ring is striped: owner i has the vnodes from i times vnodes per owner up to the next owner's, the last owner also the rest, and a bucket belongs to the owner whose stripe its hash falls into |
| `RoutingSound.PlacedIs` | cpp/common/routing.cpp:317-333 | placement by stripes, which is what soundness is stated with, is placement by the loader's formula |
| `RoutingSound.HashSound` | cpp/common/routing.cpp:306-339 | hash routing keeps every owner into whose stripe the bucket of a hit hashes, if that bucket is not negative or the window passes the exact condition |
| `RoutingSound.HashRoutingExact` | cpp/common/routing.cpp:306-339 | for a window and a multiplier, hash routing asks the owner of every hit under every ring, hash and set of owners if and only if the window is empty, or its bounds are both in negative buckets or both not (exclusive windows: scaled bounds at least -1) |
| `RoutingSound.HashRoutingLoses` | cpp/common/routing.cpp:322-323 | if a window has a hit in a negative bucket and a bound in one that is not negative, some ring, hash and row owner lose a hit |
| `RoutingSound.MonthWindowExact` | cpp/common/routing.cpp:343-352 | comparing month numbers covers a window if and only if it lies in one year, or its months are January and December |
| `RoutingSound.RoutingIsSound` | cpp/common/routing.cpp:258-359 | for every scheme, an owner holding a correctly placed matching row is asked, provided the query is routable: month windows that month numbers can express, hash windows that pass the exact condition or rows in buckets that are not negative |
| `RoutingSound.EligibleIsSubset` | cpp/common/routing.cpp:258-359 | only data owners are asked |
| `RoutingAsks.RangeAsked` | cpp/common/routing.cpp:274-287 | a distance query asks an owner that has a range if and only if some distance is both in the range and in the window |
| `RoutingAsks.ZoneAsked` | cpp/common/routing.cpp:288-305 | a zone query asks an owner that has zones if and only if one of them lies between the bounds without their fractions |
| `RoutingAsks.MonthAsked` | cpp/common/routing.cpp:340-357 | a pickup query inside a year asks an owner that has months if and only if some second of the window lies in one of them |
| `RoutingAsks.HashAsked` | cpp/common/routing.cpp:306-339 | a query on the hash column asks exactly the owners into whose stripe some bucket of the window hashes, or everybody if there is none or if there are more than four buckets per vnode |
| `RoutingSound.MonthRoutingExact` | cpp/common/routing.cpp:340-357 | for all window bounds, fractional ones included: month routing loses no correctly placed row under any manifest if and only if month numbers can express the window |
| `RoutingSound.MonthRoutingLoses` | cpp/common/routing.cpp:340-357 | the manifest and row with which an inexpressible window loses a match |
| `RoutingSound.WinterWindowLoses` | cpp/common/routing.cpp:340-357 | a query from 1 November 1970 to 1 February 1971 does not ask the owner of a pickup on 1 December 1970 |
| `Calendar.MonthIndexMonotone` | cpp/common/routing.cpp:159-168 | later times are never in earlier months |
| `Calendar.MonthLength` | cpp/common/routing.cpp:159-168 | every month has the Gregorian number of days, in every year |
| `Calendar.FourCenturies` | cpp/common/routing.cpp:159-168 | the calendar repeats after 400 years of 146097 days |
| `Calendar.LeapDays` | cpp/common/routing.cpp:159-168 | 29 February exists in 1972 and 2000 and does not in 2100 |
| `Store.MatchListMeans` | cpp/common/csv_store.cpp:109-122 | the match list is ascending and holds exactly the rows that match |
| `Store.MatchListSplit` | cpp/common/csv_store.cpp:150-187 | local hits of adjacent ranges concatenate to the hits of the whole |
| `Store.AnswerIsFilter` | cpp/common/csv_store.cpp:109-122 | the rows of the match list are the filtered rows of the shard, in order |
| `Store.PartitionStore.RangeSearch` | cpp/common/csv_store.cpp:124-188 | for every split into contiguous ranges the parallel search is the plain filter; an unknown column gives nothing |
| `Store.PartitionStore.ScanRange` | cpp/common/csv_store.cpp:166-177 | one thread's range |
| `Store.PartitionStore.MinMax` | cpp/common/csv_store.cpp:196-210 | the exact range of a column over the rows that parsed |
| `Store.PartitionStore.ComputeColumnRanges` | cpp/common/csv_store.cpp:214-241 | exact ranges for all columns, none for a shard without a parsed row |
| `Store.PartitionStore.Precompute` | cpp/server/node.cpp:625-647 | the match list is the plain filter whether or not the range table skipped the scan |
| `Store.SkipIsSafe` | cpp/common/csv_store.cpp:243-256 | a query the range table rules out matches nothing |
| `Store.SkipsExactly` | cpp/common/csv_store.cpp:243-256 | with the exact ranges a query is ruled out if and only if the values of some column all lie on one side of a predicate's window |
| `Store.PartialRangesSound` | py/server/node.py:196-222 | a partly built range table rules out only what the full one does |
| `SortedPartition.BisectLeft` | py/server/node.py:224-228 | first position not below the key |
| `SortedPartition.BisectRight` | py/server/node.py:224-228 | first position above the key |
| `SortedPartition.BisectWindow` | py/server/node.py:224-228 | on a sorted column the window is exactly the set of hits, inclusive or exclusive, empty ones included |
| `SortedPartition.Partition.constructor` | py/server/node.py:172-194 | after loading, every column is permuted alike and the sort column is sorted |
| `SortedPartition.Partition.PermuteColumn` | py/server/node.py:183-188 | one column under the sort permutation |
| `SortedPartition.Partition.WindowScan` | py/server/node.py:261-280 | the bisect window filtered by the other predicates is the plain filter |
| `SortedPartition.Partition.FullScan` | py/server/node.py:282-302 | the fallback scan is the plain filter |
| `SortedPartition.Partition.RangeSearch` | py/server/node.py:230-302 | all three paths return exactly the ascending matching indices |
| `SortedPartition.PermutedMultiset` | py/server/node.py:179-188 | a permutation keeps the multiset |
| `SortedPartition.SortKeepsAnswers` | py/server/node.py:172-190 | the sorted partition answers every query with the same multiset of rows as the unsorted one |
| `Lines.LinesConcat` | cpp/common/csv_store.cpp:330-341 | cutting a text behind a newline cuts its lines |
| `Lines.CountIsLines` | cpp/common/csv_store.cpp:352-362 | newlines counted are lines terminated |
| `Lines.FillMeans` | cpp/common/csv_store.cpp:384-423 | with enough slots a thread writes its non-blank lines in order, and the unterminated tail only if a slot is left |
| `Lines.ChunkFill` | cpp/common/csv_store.cpp:384-423 | with the counted capacity a chunk yields its sequential rows, plus its tail exactly when it has a blank line |
| `Loader.ChunkStarts` | cpp/common/csv_store.cpp:330-341 | the chunk boundaries are line starts, ordered, and tile the data |
| `Loader.StartsTile` | cpp/common/csv_store.cpp:330-341 | for every thread count the cuts, moved behind the next newline, tile the data |
| `Loader.ChunksEven` | cpp/common/csv_store.cpp:330-341 | the work is divided evenly: no thread gets more bytes than its share, one byte and one line |
| `Loader.CountChunk` | cpp/common/csv_store.cpp:352-362 | the memchr loop counts the newlines |
| `Loader.Offsets` | cpp/common/csv_store.cpp:365-366 | the prefix sum of the counts |
| `Loader.OffsetCounts` | cpp/common/csv_store.cpp:365-369 | an offset is the number of newlines in front of its chunk |
| `Loader.Disjoint` | cpp/common/csv_store.cpp:379-384 | the slots of two threads do not overlap |
| `Loader.ParseLine` | cpp/common/csv_store.cpp:384-423 | one round of a thread's loop: which slot gets which line, and where it reads on |
| `Loader.StepThread` | cpp/common/csv_store.cpp:372-424 | a thread writes inside its own offsets and leaves the work of the others intact |
| `Loader.RunThreads` | cpp/common/csv_store.cpp:372-424 | under every schedule of the threads the valid rows are the expected ones |
| `Loader.LoadData` | cpp/common/csv_store.cpp:330-424 | the loaded rows as a function of data and thread count only |
| `Loader.LoadPartition` | cpp/common/csv_store.cpp:296-430 | an empty file gives no rows, a file without newline is refused, otherwise the header is skipped |
| `Loader.LoadIsSequential` | cpp/common/csv_store.cpp:330-424 | newline-terminated data loads as a sequential reader reads it, for every thread count |
| `Loader.TailRowKept` | cpp/common/csv_store.cpp:354-384 | an unterminated last row is kept if and only if it is no valid row, or the last chunk has a blank line |
| `Loader.ThreadCountMatters` | cpp/common/csv_store.cpp:354-384 | unterminated data for which one thread and two threads load different rows |
| `Loader.SameForBoth` | cpp/common/csv_store.cpp:330-384 | two thread counts load the same rows if and only if no valid row is unterminated, or both or neither of their last chunks have a blank line |
| `Loader.ThreadCountInvisible` | cpp/common/csv_store.cpp:330-384 | every thread count loads the same rows if and only if the data is terminated, its last line is no valid row, or no line of it is blank |
| `LoaderText.FileLoads` | cpp/common/csv_store.cpp:296-430 | a header and lines with any mixture of LF and CR LF endings load, with any number of threads, as the rows the parser makes of the lines without their endings, in order; an empty LF line is skipped, an empty CR LF line is offered to the parser |
| `LoaderText.EndingsAlike` | cpp/common/csv_store.cpp:388-389 | for lines that are not empty the endings make no difference |
| `LoaderText.OpenFileLoads` | cpp/common/csv_store.cpp:384-423 | a last line without an ending is kept as it was written or lost, and nothing else changes |
| `Scheduler.FairScheduler.constructor` | cpp/common/scheduler.hpp:45-46 | an empty schedule, which is regular |
| `Scheduler.FairScheduler.Add` | cpp/common/scheduler.cpp:37-41 | appends a new request, or changes the weight and not the credits of a known one |
| `Scheduler.FairScheduler.Remove` | cpp/common/scheduler.cpp:43-52 | removes the request; the cursor stays in range |
| `Scheduler.FairScheduler.Next` | cpp/common/scheduler.cpp:54-84 | all three modes, the skip of entries without credit, and the give-up after all were tried |
| `Scheduler.TurnAdvances` | cpp/common/scheduler.cpp:70-78 | from a regular state a turn returns the wheel's slot at the position and moves on by one |
| `Scheduler.FairShare` | cpp/common/scheduler.cpp:54-84 | any round of sum-of-weights calls returns each request exactly weight times and restores the state |
| `Scheduler.ReweightRegular` | cpp/common/scheduler.cpp:39-39 | re-adding keeps the state regular if and only if the new weight is invisible in the current round; what that means for the share is ShareAfterReweight |
| `Scheduler.RemoveRegular` | cpp/common/scheduler.cpp:43-52 | a removal keeps the state regular if and only if it does not pull a partly used entry from under the cursor; what that means for the share is ShareAfterRemove |
| `Scheduler.RemoveKeepsUnit` | cpp/common/scheduler.cpp:43-52 | with unit weights every removal keeps the state regular |
| `Fairness.FirstCreditServed` | cpp/common/scheduler.cpp:57-83 | a call returns the first entry with credit, going round from the cursor |
| `Fairness.NoCreditServed` | cpp/common/scheduler.cpp:57-83 | when nobody has credit, a call returns the entry under the cursor if it has weight, and otherwise the front of the queue |
| `Fairness.WeightlessPassedOver` | cpp/common/scheduler.cpp:57-83 | the entry returned has weight or credit if and only if some entry has credit, or the one under the cursor or at the front has weight |
| `Fairness.WeightlessServed` | cpp/common/scheduler.cpp:82-83 | a history of adds after which a call returns a request without weight and credit while another has weight 2 |
| `Fairness.ServedInTime` | cpp/common/scheduler.cpp:54-84 | a request is returned by the call that follows the credits ahead of it, and by none before |
| `Fairness.ServedWithinRound` | cpp/common/scheduler.cpp:54-84 | a request is among the next sum-of-weights calls if and only if fewer credits are ahead of it; so nobody waits longer than a round while no credits exceed their weight |
| `Fairness.FairExactly` | cpp/common/scheduler.cpp:54-84 | in any schedule of two or more requests with positive weights and credits, every round from now on returns each request exactly weight times if and only if the schedule is regular |
| `Fairness.RoundRobinShare` | cpp/common/scheduler.cpp:64-68 | in round_robin mode any as many consecutive calls as there are requests return each request once and leave the cursor where it was |
| `Fairness.TurnsAreUnit` | cpp/common/scheduler.cpp:64-83 | round robin returns what the weighted schedule with all weights 1 returns |
| `Shares.ShareAfterRemove` | cpp/common/scheduler.cpp:43-52 | after a removal the next round, and every later one, returns each request exactly weight times if and only if the removal was not in front of a partly used entry under the cursor, or left one request |
| `Shares.RemovalDisturbs` | cpp/common/scheduler.cpp:43-52 | a history of adds, calls and one removal after which a request of weight 3 gets one of five calls and one of weight 2 gets four |
| `Shares.ShareAfterReweight` | cpp/common/scheduler.cpp:39-39 | after a re-add every round returns each request exactly weight times if and only if the new weight is invisible in the current round; a lone request is exempt |
| `Shares.FairWhenRegular` | cpp/common/scheduler.cpp:37-84 | after every history of adds with positive weights, removals and calls: every later round gives the exact share if and only if the schedule is regular |
| `Shares.CalmIsFair` | cpp/common/scheduler.cpp:37-84 | from an empty schedule, a history in which each re-add and removal meets its condition leads to exact shares in every round |
| `Shares.UnitsCalm` | cpp/common/scheduler.cpp:37-84 | with unit weights every history of adds, removals and calls is such a history |
| `ChunkSizing.ChunkSizer.Decide` | cpp/common/scheduler.cpp:5-28 | the request's new state and decision; other requests are untouched |
| `ChunkSizing.ChunkSizer.Forget` | cpp/common/scheduler.cpp:30-33 | the request starts afresh |
| `ChunkSizing.BoundedExactly` | cpp/common/scheduler.cpp:5-28 | all decisions of all requests are within [min, max] if and only if the initial size is |
| `ChunkSizing.HintNearest` | cpp/common/scheduler.cpp:10-15 | a pull with a hint gets the size within the limits that is nearest to the hint, so the hint itself if it is one |
| `ChunkSizing.FirstSize` | cpp/common/scheduler.cpp:8-8 | a first pull without a hint gets the configured first size |
| `ChunkSizing.SteadyExactly` | cpp/common/scheduler.cpp:16-24 | a pull leaves every size as it was if and only if it comes between half and twice the target time after the one before |
| `ChunkSizing.AdaptsExactly` | cpp/common/scheduler.cpp:19-23 | an earlier pull makes the size the least one of more than half as much again, up to the maximum; a later one halves it, down to the minimum |
| `ChunkSizing.FastGrowth` | cpp/common/scheduler.cpp:16-20 | n fast pulls: the maximum, or at least (3/2)^n times the start |
| `ChunkSizing.SlowDecay` | cpp/common/scheduler.cpp:21-23 | n slow pulls: exactly max(min, start / 2^n) |
| `Client.RunOne` | cpp/client/client.cpp:193-275 | when the loop stops and why, the rows, chunks and bytes counted, and the smallest and largest chunk with rows |
| `Client.StopsExactly` | cpp/client/client.cpp:193-272 | which reply ends the loop and why: the first that fails, reaches the cancel or the chunk limit, or is last, with precedence in this order |
| `Client.TotalsConcat` | cpp/client/client.cpp:193-272 | rows and bytes add up over the replies |
| `Client.ObservedMeans` | cpp/client/client.cpp:193-275 | the replies of a run count exactly the delivered rows, and only its final one is last |
| `Client.ClientSeesAll` | cpp/client/client.cpp:193-275 | a client that pulls to the end stops exactly at the last chunk, has counted every delivered row, and called at most once more than rows |
| `PyOwner.OwnerRequest.constructor` | py/server/node.py:483-519 | registration: skipped, empty and matching shards, and the shard without rows |
| `PyOwner.OwnerRequest.Tick` | py/server/node.py:790-828 | one producer tick that no pull interrupts |
| `PyOwner.OwnerRequest.Pull` | py/server/node.py:740-758 | one pull that the producer does not interrupt |
| `PyOwner.HandedOutOnce` | py/server/node.py:713-828 | rows leave the owner once and in order; the end is only reported when nothing is pending |
| `PyOwner.EndMeansComplete` | py/server/node.py:713-828 | a reported end means the whole answer was handed out |
| `PyOwner.EmptyShardNeverEnds` | py/server/node.py:497-501 | without rows no sequence of ticks and pulls ever reports the end |
| `PyOwner.EndsExactly` | py/server/node.py:483-519 | an owner reports the end if and only if its shard has rows |
| `PyGather.IsGatherRun` | py/server/node.py:713-828 | every interleaving of the Python owners' lock blocks and unlocked reads with pulls, gateway and faults is a run of the gather machine with the same faults |
| `PyGather.PyExactlyOnce` | py/server/node.py:713-828 | Python owners hand out rows at most once and in order under any faults, and an asked owner without faults has delivered its whole answer at the end if and only if its forward reached it |
| `PyGather.EmptyNeverEnds` | py/server/node.py:797-802 | a query that asks and reaches a Python owner without rows never reports its last chunk unless a pull of that owner fails; time-outs, and failures elsewhere, do not help |
| `PyGather.EmptyWaits` | py/server/node.py:797-802 | in every reachable state the gateway has given up on such an owner if and only if a pull of it has failed, and otherwise still waits for it |
| `PyGather.PyCanComplete` | py/server/node.py:785-828 | from every reachable state in which the gateway waits for no such owner, whatever faults there were, a fault-free continuation ends the query |
| `PyGather.PyEndsExactly` | py/server/node.py:713-828 | from a reachable state a fault-free continuation to the end exists if and only if every Python owner without rows that the query asks and reaches has had a pull fail |
| `PyGather.PyEndsFromStart` | py/server/node.py:713-828 | a fresh query has a fault-free run to the end if and only if it asks and reaches no Python owner without rows |
| `PyGather.Follows` | py/server/node.py:785-828 | whatever the gather machine can do next, except making an owner without rows produce, one or two blocks of the Python owner do as well |
| `PyGather.TickIsSteps` | py/server/node.py:790-828 | the tick of the owner's class is the run of its blocks when no pull comes between |
| `PyGather.PullIsSteps` | py/server/node.py:740-758 | the pull of the owner's class is the run of its blocks when the producer does not come between |
| `PyGather.RegisteredStarts` | py/server/node.py:497-515 | registration leaves the record with which the interleaved run begins: done at once for a list without matches or a query the range table rules out, and without a list, never done, for an empty shard |
| `EndToEnd.CppShardAnswers` | cpp/common/csv_store.cpp:124-188 | a C++ owner's answer is the filter over its rows |
| `EndToEnd.PythonShardAnswers` | py/server/node.py:172-302 | a Python owner's answer has the rows of the filter over its unsorted rows |
| `EndToEnd.LeftOutIsEmpty` | cpp/server/node.cpp:214-242 | an owner routed away has no answer to give |
| `EndToEnd.QueryIsFilter` | cpp/server/node.cpp:199-438 | a query without faults at owners that have matches returns, as a multiset, the plain filter over the rows of every owner, asked or not, if and only if every asked owner with matches got its forward and registered it |
| `EndToEnd.QueryCompletes` | cpp/server/node.cpp:199-438 | every query has a complete fault-free run, and it returns the plain filter under exactly that condition |
| `EndToEnd.PyQueryIsFilter` | py/server/node.py:713-828 | the same for queries with Python owners, under every interleaving of their blocks |
| `EndToEnd.PyQueryCompletes` | py/server/node.py:713-828 | a query with Python owners has a fault-free run to the end if and only if it asks and reaches none without rows, and every such run returns the plain filter under the same condition as a query without Python owners |
| `Json.Lex.Next` | cpp/common/routing.cpp:37-86 | the next token and the text behind it; the cursor never passes the end |
| `Json.Lex.QuotedString` | cpp/common/routing.cpp:48-67 | string contents with the four escapes, also when unterminated |
| `Json.ParseValue` | cpp/common/routing.cpp:140-152 | terminates on every text with the specified value |
| `Json.ParseObject` | cpp/common/routing.cpp:104-121 | the member loop, the last of equal keys winning |
| `Json.ParseArray` | cpp/common/routing.cpp:123-138 | the element loop after the one-token look-ahead |
| `Json.ParseRoot` | cpp/common/routing.cpp:154-157 | total on every text |
| `JsonRoundTrip.ReadsEscaped` | cpp/common/routing.cpp:48-67 | an escaped string reads back as itself |
| `JsonRoundTrip.PrintLexes` | cpp/common/routing.cpp:37-86 | printed tokens are lexed back, whatever whitespace is between them |
| `JsonRoundTrip.ParsesDoc` | cpp/common/routing.cpp:104-152 | from the tokens of a document the parser reads its meaning and nothing more |
| `JsonRoundTrip.RoundTrip` | cpp/common/routing.cpp:27-157 | every document, printed with any whitespace and anything behind it, is read back |
| `JsonRoundTrip.StandardNumber` | cpp/common/routing.cpp:73-80 | every number and all whitespace of RFC 8259 are covered by the round trip |
| `JsonRoundTrip.ObjectEnds` | cpp/common/routing.cpp:104-121 | an object that ends in the wrong way (a comma without a member, a key without a colon, another token for the brace) reads as the members in front of its end |
| `JsonRoundTrip.ArrayEnds` | cpp/common/routing.cpp:123-138 | behind an element any token but a comma ends an array; behind the opening bracket only the closing one does |
| `JsonRoundTrip.HoleReads` | cpp/common/routing.cpp:140-152 | where a value is expected, a token that starts none is used up and reads as null |
| `JsonRoundTrip.EscapeOutsideSubset` | cpp/common/routing.cpp:54-59 | other escapes of section 7 of RFC 8259 read as their letter |
| `JsonRoundTrip.StuckOnUnknown` | cpp/common/routing.cpp:73-83 | the lexer stays where it is on a non-empty text if and only if no token starts there; it then delivers an empty number |
| `OverlayText.ParseFlowMap` | cpp/common/overlay.cpp:54-80 | the flow map's entries, or the body it refuses |
| `OverlayText.ParseFlowSeq` | cpp/common/overlay.cpp:82-95 | the flow sequence's items, or none without brackets |
| `Overlays.ReadEdges` | cpp/common/overlay.cpp:179-189 | the edges section loop |
| `Overlays.ReadRouting` | cpp/common/overlay.cpp:190-219 | the routing section loop, flow rows and block rows |
| `Overlays.ReadNodes` | cpp/common/overlay.cpp:159-178 | the nodes section loop |
| `Overlays.LoadOverlay` | cpp/common/overlay.cpp:127-288 | the line walk over all sections; a file without nodes is refused |
| `OverlayRoundTrip.FlowMapReads` | cpp/common/overlay.cpp:54-80 | a printed flow map reads back as its entries |
| `OverlayRoundTrip.FlowSeqReads` | cpp/common/overlay.cpp:82-95 | a printed flow sequence reads back as its names |
| `OverlayFile.RowsRead` | py/topology/generator.py:283-307 | printed node lines and routing rows read back, up to the next heading |
| `OverlayFile.EdgesRead` | py/topology/generator.py:296-300 | printed edge lines read back in order |
| `OverlayDocument.FileReadsBack` | py/topology/generator.py:248-330 | the printed file loads as exactly its nodes, edges, routing rows and data owners |
| `OverlayDocument.RoutingReadsBack` | py/topology/generator.py:302-307 | a complete routing table loads as the same table |
| `OverlayForms.FieldReads` | cpp/common/overlay.cpp:71-78 | a field with any padding and quotes reads as its key and its value, whatever a quoted value contains |
| `OverlayForms.FlowPiecesRead` | cpp/common/overlay.cpp:54-80 | a flow map reads as its entries; parts without a colon and a comma too many are skipped |
| `OverlayForms.FieldsRowIs` | cpp/common/overlay.cpp:71-78 | of several entries with one key the last counts |
| `OverlayForms.FlowMapRefuses` | cpp/common/overlay.cpp:58-63 | a text is no flow map if and only if no closing brace stands behind an opening one |
| `OverlayForms.BlockReads` | cpp/common/overlay.cpp:203-216 | block lines read as their entries, key in front of the colon and value behind it; blank lines and lines without a colon are skipped |
| `OverlayForms.RoutesRead` | cpp/common/overlay.cpp:190-219 | a routing section with rows in any mixture of block and flow form reads as the table of its rows |
| `OverlayForms.FormsAlike` | cpp/common/overlay.cpp:190-219 | the block and the flow form of the same rows read alike |
| `OverlayWritten.RawCleans` | cpp/common/overlay.cpp:21-33 | a comment behind a line goes, with the blanks in front of it |
| `OverlayWritten.HashCuts` | cpp/common/overlay.cpp:27-33 | the first `#` of a line starts a comment wherever it stands, inside quotes too |
| `OverlayWritten.EdgesThrough` | cpp/common/overlay.cpp:179-189 | exactly the lists of two names are edges |
| `OverlayWritten.PartLoads` | cpp/common/overlay.cpp:147-285 | a section loads as what it says, up to the next heading, whatever was loaded before |
| `OverlayWritten.WrittenLoads` | cpp/common/overlay.cpp:127-288 | every file with sections in any order, rows in any form, comments and blanks behind any line loads as what its sections say, and is refused if it names no node |
| `OverlayWritten.BadNodeRefused` | cpp/common/overlay.cpp:159-178 | a node whose text is no flow map makes the file unreadable, whatever comes behind it |
| `OverlayWritten.BadRowRefused` | cpp/common/overlay.cpp:199-202 | so does a routing row that opens a brace and does not close it |
| `OverlayWritten.ColonlessNode` | cpp/common/overlay.cpp:162-177 | a node line without a colon is its own name and its own text |
| `OverlayWritten.OpenSequence` | cpp/common/overlay.cpp:82-95 | behind an opening bracket that no closing one follows everything is read if a closing one stands in front, and nothing otherwise |
| `Deployment.ForwardByName` | cpp/server/node.cpp:493-541 | forwarding over tables of names does what forwarding over tables of ranks does |
| `Deployment.RoutingComplete` | py/topology/generator.py:302-307 | in a connected overlay every row of the generated routing lists every node |
| `Deployment.LoadedOverlayDelivers` | py/topology/generator.py:260-330 | a connected overlay of at most nine nodes, generated, printed and loaded: every forward by the loaded names is accepted by the owner it is meant for |

## Left out

- gRPC stubs, channels, deadlines as clock time, compression, thread creation and joining: a call is a step that succeeds, is refused, times out or errors.
- Condition-variable wake-ups: a waiter is enabled whenever its predicate holds. FetchChunk is one step, because its wait, drain and promotion run under one lock.
- Concurrent FetchChunk calls of several clients for one request id, and request ids used twice.
- A forward that is retried after the owner has already finished and dropped the request, which would register it again.
- CancelQuery: a cancelled request ends the run.
- The Python gateway (SubmitQuery and FetchChunk in py/server/node.py); the configurations run a C++ gateway.
- The Python chunk sizer, which differs from the C++ one in not recording hinted pulls; `SizedPulls` is about the C++ one.
- Fairness of the thread scheduler: `GatherCompletes.CanComplete` and `PyGather.PyEndsExactly` are about the existence of a completion, not about every schedule taking it.
- Reading the fields of a CSV line, CSV quoting, mmap and OpenMP: a line-to-row function and explicit splits stand in for them.
- Floating-point rounding and NaN: columns and bounds are reals. C++ casts out of range are undefined, so routing requires them to be defined (`CastsDefined`).
- Manifests of the consistent_hash scheme whose bucket enumeration indexes outside the ring, which is undefined in C++ (`RingOk`); negative vnode counts that stay inside are modelled.
- FNV-1a, which is an arbitrary function of the bucket here, and `std::stod`, for which number tokens keep their lexeme.
- The extraction of routing fields from the parsed manifest (cpp/common/routing.cpp:184-256), and the splitter that places rows, which is not part of this model; `Placed` states what it has to guarantee.
- atoi and atof on overlay values, and environment overrides.
- The canonical sort of the edge list in emit_yaml, the fixed edge lists, and the random topologies.
- Telemetry, logging, printing of rows and command lines.
- RequestStates.RequestState.PushRows: states what a push loop does that no pull interrupts; every single push is tied to the machine by `PushIsStep`.
- RequestStates.RequestState.ProduceTick: states what an undisturbed round does; its blocks are tied to the machine one by one, and `TickIsRun` shows which run it is.
- RequestStates.RequestState.ServePull: states what an undisturbed pull does; its blocks are tied to the machine one by one, and `PullIsRun` shows which run it is.
- RequestStates.TickIsSteps: is about a tick that nobody interrupts; interrupted ticks are runs of the machine's steps by definition.
- PyOwner.OwnerRequest.Tick: is one undisturbed tick; ticks cut up by pulls are in `PyGather`.
- PyOwner.OwnerRequest.Pull: is one undisturbed pull; pulls cut up by the producer are in `PyGather`.
- PyOwner.HandedOutOnce: is about undisturbed ticks and pulls; `PyGather.PyExactlyOnce` is about all interleavings.
- PyOwner.EndMeansComplete: is about undisturbed ticks and pulls; `PyGather.PyExactlyOnce` is about all interleavings.
- Overlays.ReadNodes: keeps the fields of a node as strings; the port is not read as a number, and the default virtual host is not filled in.
- Overlays.LoadOverlay: skips over the chunking, scheduler and network settings instead of reading them.
- OverlayDocument.FileReadsBack: is about names free of whitespace, quotes and the characters `, : { } [ ] #`, which the format cannot carry.
- JsonRoundTrip.RoundTrip: covers strings printed with the escapes for quote, backslash, newline and tab; other escapes are outside the reader's subset.
