# Overload, modelled and verified

Overload is a distributed load generator. A primary splits request rates and the rows of
request files among secondaries; a secondary keeps a pool of connections to the target and
sends the requests of every second over it. This project models the parts of it that carry
state, protocols or round trips, and proves what they promise for every run or every input.

Concurrent code is modelled as a machine over events. An event is the code one task runs
between two suspension points, and an event that is not possible leaves the state unchanged,
so that every sequence of events is a run. Beside each machine a class updates fields in
place, as the source does, and each of its methods is proved to be an event, or a run, of
the machine. Randomness, clocks, sockets, schedulers and the cluster library are arbitrary
choices or parameters.

| files | what they model |
|---|---|
| `PoolMachine`, `PoolGuarantees`, `PoolDelivery`, `QueuePool` | the connection pool with its resize, get, return, open and shrink tasks |
| `HandOver`, `PoolRegistry` | how the pool of a job passes from a broken connection to its successor |
| `ClusterProtocol`, `ChannelOrder`, `ClusterGuarantees`, `DivisionGuarantees`, `PrimaryLoop`, `PrimaryJob`, `SecondaryLoop` | the primary's loop, the channels and the secondary's message automaton |
| `WorkDivision`, `RowReader`, `StepSchedule` | row ranges, shares of rates, the cyclic row reader, step schedules |
| `SendLoop`, `RequestFuture` | one cycle of sending, and the future that sends one request |
| `JsonValue`, `Schemas`, `SchemaRoundTrip`, `SchemaCodec`, `DataGenerator`, `SchemaMeaning` | data schemas: parser, printer, generator, and what a schema describes |
| `JsonPointer`, `Templates`, `TemplateFilling`, `TemplateEngine` | templates in JSON bodies |
| `LuaText`, `LuaJson`, `LuaGrammar`, `LuaReading`, `LuaRoundTrip`, `LuaCodec` | the bundled Lua JSON codec, and JSON itself |
| `Results`, `Arithmetic`, `Decimals` | shared notions |

## Findings

Some natural claims do not hold of the code. For each there is a lemma with a failing input
and, where the claim has an exact condition, the condition.

- A shrink task that runs after the owner's next operation can remove connections that were
  opened since. The pool then falls short of its target, by no more than such tasks removed
  (`ShortfallIsLateRemovals`), and from every reachable resting pool every pending late task
  can cost exactly what it was to remove (`LateShrinkCanLoseItsSlots`).
- A connection for which there is no request, or whose request cannot be built, is dropped
  without being returned. It stays counted as busy for ever, so the pool is smaller by it in
  every continuation (`LostConnectionsShrinkThePool`). A cycle loses connections if and only
  if a call of the request provider is answered with an error or with no request, or a
  dispatched request cannot be built, for instance because its url is none (`SendRequests`).
  In batch mode an answer without a request also makes the fill loop spin
  (`FillEndsIffRequests`).
- Between connections, a later connection of a job can get a pool if and only if there is no
  listener or it was notified (`LaterConnectionGetsAPool`). Two kinds of end leave a listener
  whose sender is gone: a clean end of the stream or a failed preparation
  (`AbandonedJobNeverRunsAgain`), and a stop while a successor already waits
  (`StopWithASuccessorShutsOut`).
- With a connection in `init_connection_pool`, two further ones can always come to run two
  message loops (`OverlappingArrivalsRunTwoLoops`).
- A secondary of a split job rejects what it is sent if and only if the rows could not be
  counted when its link was opened, before the first round or in the round it joined
  (`AcceptedIffCounted`).
- A repair that cannot count the rows forgets the drop, so rows stay unassigned while the
  job goes on: for every file, and every secondary of it, there is such a run
  (`RowsCanBeLeftOut`), and every state one round before a look-up has such a continuation
  (`ForgottenRepairLeavesRowsOut`). In every run a row is assigned if and only if a link to
  which it was dealt in the last division has been open since (`AssignedExactly`); with a
  row for each secondary all are assigned if and only if no link of that division was
  closed (`AllAssignedIffAllOpen`).
- A split job divides by zero if and only if it starts with countable rows and no node, or
  a round that looks for nodes has a drop to repair, can count the rows, has no secondary
  left and finds none (`CrashesExactly`). Every split job has a run that ends so
  (`JobsCanCrash`). Where the rows could always be counted, having no secondary left means
  a drop to repair (`CrashesOnlyWithoutSecondaries`).
- With fewer rows than secondaries a row is shared (`AssignedSlicesAreFair`).
- The test for continuous steps is done in 32 bits, which wrap around in a release build: a
  step that ends at the largest number may be followed by one that starts at 0
  (`WrappedStepsAreAccepted`).
- A handler that takes over a pool does not remember its size, so a first rate message for
  no connections does not resize it (`TargetsFollowRates`).
- An array of items of an unknown type is accepted but cannot be sent on
  (`UnknownItemsDoNotTravel`), and the generator fails for some choice if and only if such
  an array can have an element (`FailsIffNotGenerable`).
- Templates below a key with a slash, `~0` or `~1` are not filled (`FillingIsExact`); with
  escaped keys every path would be addressed (`EscapedPointersAddressTheirPath`).
- The Lua decoder also reads a comma before the closing bracket of an array, which JSON does
  not allow (`TrailingCommaIsRead`).
- A high surrogate escape followed by an escape that is no low surrogate swallows a
  character (`ImproperPairInString`).

The comments speak of looking for secondaries every 10 seconds; the code counts to 10
inclusive, so it is every eleventh tick, and the model follows the code.

## Model

| member | source | states |
|---|---|---|
| `PoolGuarantees.BusyIsExact` | cluster-executor/src/connection.rs:113-127 | in every reachable state the busy counter is the connections lent, those lost since, and those on their way back, so the subtraction of the claimed ones never underflows |
| `PoolGuarantees.AccountedNext` | cluster-executor/src/connection.rs:191-192 | every event of every task keeps that equation |
| `PoolGuarantees.ShortfallIsLateRemovals` | cluster-executor/src/connection.rs:71-111 | in every reachable state idle, new, busy and selected connections, opens in flight and failed opens fall short of the target by at most what late shrink tasks removed |
| `PoolGuarantees.NoSlotLost` | cluster-executor/src/connection.rs:136-188 | when every shrink task runs before the owner's next operation no slot is ever lost |
| `PoolGuarantees.LateShrinkLosesSlots` | cluster-executor/src/connection.rs:238-247 | for every pool size there is a run with a late shrink task that loses all the slots |
| `PoolGuarantees.LateShrinkCanLoseItsSlots` | cluster-executor/src/connection.rs:302-312 | from every reachable resting pool with a late shrink task of k pending there is a continuation that ends k slots short |
| `PoolGuarantees.InFlightNext` | cluster-executor/src/connection.rs:265-300 | by how much each event changes the opens in flight |
| `PoolGuarantees.SlotsKeptNext` | cluster-executor/src/connection.rs:184-188 | every event keeps the slots, counting late removals |
| `PoolGuarantees.LendingStaysWithinTarget` | cluster-executor/src/connection.rs:136-155 | a get of a non-elastic pool that lends anything ends within the target |
| `PoolGuarantees.FullPoolLendsNothing` | cluster-executor/src/connection.rs:138-148 | a pool at or over its target selects nothing and keeps nothing idle |
| `PoolGuarantees.NeverOverTarget` | cluster-executor/src/connection.rs:157-192 | if the target never shrinks, no run has more connections out, lost ones included, than the target |
| `PoolGuarantees.LostConnectionsShrinkThePool` | cluster-executor/src/secondary.rs:721-770 | in every continuation busy stays at or above the number of connections gone, dropped or held by a task that will not return them; a non-elastic pool that lends has at most the target minus that number out, and one whose target does not exceed it lends nothing |
| `PoolGuarantees.GoneStaysGone` | cluster-executor/src/secondary.rs:721-770 | no event of any task brings such a connection back |
| `PoolGuarantees.GoneNext` | cluster-executor/src/secondary.rs:721-770 | their number grows by what is dropped for want of a request and by what is dispatched to be lost, and by no other event |
| `PoolGuarantees.KeepAliveHolds` | cluster-executor/src/connection.rs:332-350 | no connection is lent more often than the keep-alive setting or the largest 32-bit number, its remaining reuse never goes negative, and it is lent at most once after its expiry |
| `PoolGuarantees.KeptAliveNext` | cluster-executor/src/connection.rs:163-174 | every event keeps the reuse accounts of all connections |
| `PoolGuarantees.MarksAreExact` | cluster-executor/src/connection.rs:332-346 | in every run a connection in the pool has come back from all its lends and is marked for dropping if and only if it was lent as often as allowed or came back after its expiry; a fresh one is not |
| `PoolGuarantees.ReturnedOk` | cluster-executor/src/connection.rs:332-346 | a return marks exactly those, and changes neither the expiry nor the counts of lends |
| `PoolGuarantees.ElasticUntilResized` | cluster-executor/src/connection.rs:71-74 | in every run a pool is elastic if and only if it was made so and never had a target but 0 |
| `PoolDelivery.SelectTakesTheOldest` | cluster-executor/src/connection.rs:136-174 | a get takes the oldest of the queue, returned before new ones, as many as it was asked for, there are and, unless elastic, there is room for under the target; all that are not marked are asked |
| `PoolDelivery.FreshPoolDelivers` | cluster-executor/src/connection.rs:71-197 | a pool that was resized once and whose opens succeeded answers a get, when the connections are ready, with as many as it was asked for and has: those opened first, each unmarked, with its whole reuse limit and lent for its first time |
| `PoolGuarantees.MetricsAreExact` | cluster-executor/src/connection.rs:189-195 | successes minus drops are the connections alive and the busy gauge is the connections lent, both too high by the connections lost, and the idle gauge is too high by exactly the connections discarded |
| `PoolGuarantees.MeteredNext` | cluster-executor/src/connection.rs:292-299 | every event keeps the three metric equations |
| `PoolGuarantees.InvariantRun` | cluster-executor/src/connection.rs:71-350 | every run keeps accounting, slots, cap, reuse and metrics together |
| `QueuePools.QueuePool.constructor` | cluster-executor/src/connection.rs:53-69 | a new pool is the start of the machine and satisfies the invariant |
| `QueuePools.QueuePool.Drain` | cluster-executor/src/connection.rs:75-81 | the newest connections up to the count are kept and the others counted as dropped |
| `QueuePools.QueuePool.SpawnResizer` | cluster-executor/src/connection.rs:228-263 | what opens or removes connections is started for the difference |
| `QueuePools.QueuePool.SetConnectionCount` | cluster-executor/src/connection.rs:71-111 | a resize is the resize event of the machine |
| `QueuePools.QueuePool.ClaimConnections` | cluster-executor/src/connection.rs:313-329 | all connections of a container move to the back of the queue, and are counted |
| `QueuePools.QueuePool.AddNewConnection` | cluster-executor/src/connection.rs:199-220 | a batch of opens is started unless it would be empty |
| `QueuePools.QueuePool.EnforceSize` | cluster-executor/src/connection.rs:136-155 | the queue is cut to the room under the target, and the cut is metered |
| `QueuePools.QueuePool.PopFront` | cluster-executor/src/connection.rs:162-174 | the connections taken off the front are the usable ones in order, the others are counted |
| `QueuePools.QueuePool.BeginReturn` | cluster-executor/src/connection.rs:338-348 | first half of a return: the connection is marked and metered |
| `QueuePools.QueuePool.PushReturned` | cluster-executor/src/connection.rs:349 | second half: it enters the return bag |
| `QueuePools.QueuePool.EndBatch` | cluster-executor/src/connection.rs:280-298 | the opened connections of a batch are collected and the rest counted as failed |
| `QueuePools.QueuePool.PublishBatch` | cluster-executor/src/connection.rs:299 | the batch is appended to the new connections |
| `QueuePools.QueuePool.ResizeContainer` | cluster-executor/src/connection.rs:302-312 | as many of the last connections as asked for are removed, or all |
| `QueuePools.QueuePool.RunShrink` | cluster-executor/src/connection.rs:238-247 | a prompt shrink task is the shrink event |
| `QueuePools.QueuePool.RunLateShrink` | cluster-executor/src/connection.rs:238-247 | a late one is the late shrink event |
| `QueuePools.QueuePool.Wait` | cluster-executor/src/connection.rs:113-126 | while the owner waits, other tasks do any number of their events and leave the owner's fields alone |
| `QueuePools.QueuePool.Settle` | cluster-executor/src/connection.rs:125-155 | the new connections are claimed and the size settled |
| `QueuePools.QueuePool.Select` | cluster-executor/src/connection.rs:125-174 | the stretch between two suspension points is the select event |
| `QueuePools.QueuePool.Probe` | cluster-executor/src/connection.rs:175-182 | every selected connection turns out ready or broken while other tasks run |
| `QueuePools.QueuePool.HandOut` | cluster-executor/src/connection.rs:183-197 | refill and hand-out are the finish event, and what is handed out is what is lent |
| `QueuePools.QueuePool.DropHanded` | cluster-executor/src/secondary.rs:721-730 | dropping the connections just handed out is the drop event |
| `QueuePools.QueuePool.DispatchHanded` | cluster-executor/src/secondary.rs:748-770 | dispatching a request over each of them parts them, in order, into those that will be returned and those that will not |
| `QueuePools.QueuePool.LoseOne` | cluster-executor/src/secondary.rs:965-982 | a send task that panics drops a connection it holds, at any time |
| `QueuePools.QueuePool.OtherTask` | cluster-executor/src/connection.rs:265-350 | a step of any other task, a panic included, is an event of the machine and leaves the owner's fields alone |
| `QueuePools.QueuePool.GetConnections` | cluster-executor/src/connection.rs:113-197 | a get is a run of the machine in which the owner begins, selects, hears of every selected connection and finishes, with other tasks interleaved; it keeps the invariant, returns exactly what the run lends, at most what was asked for, and in a non-elastic pool stays within the target; it takes the oldest of the queue, as many as it may, and if none of those is marked and all are ready it hands out exactly those |
| `HandOver.HandOverIsSafe` | cluster-executor/src/secondary.rs:482-551 | in every run with one connection in the set-up at a time the unwrap never fails, no two handlers hold a pool, and a pool is never stored while a handler works with one |
| `HandOver.InvariantRun` | cluster-executor/src/secondary.rs:490-535 | the hand-over invariant holds along every such run |
| `HandOver.ReconnectGetsThePool` | cluster-executor/src/secondary.rs:298-311 | whoever is notified through the listener a handler left gets exactly that handler's pool |
| `HandOver.OverlappingArrivalsRunTwoLoops` | cluster-executor/src/secondary.rs:495-534 | after every serial run that leaves a connection in the set-up, two further arrivals can run two message loops with two pools |
| `HandOver.AbandonedJobNeverRunsAgain` | cluster-executor/src/secondary.rs:235-238 | after a handler leaves at the end of its stream no handler of the job ever holds a pool |
| `HandOver.LaterConnectionGetsAPool` | cluster-executor/src/secondary.rs:495-549 | after every serial run that ends between connections, some continuation has a handler with a pool if and only if there is no listener or it was notified |
| `HandOver.StopWithASuccessorShutsOut` | cluster-executor/src/secondary.rs:304-309 | after every serial run with one handler running and another waiting, a stop can leave the job where no later connection gets a pool |
| `HandOver.StopAloneAdmits` | cluster-executor/src/secondary.rs:304-309 | a stop with nobody in the set-up leaves the job open to later connections |
| `HandOver.OpenIsHeldRun` | cluster-executor/src/secondary.rs:542-550 | in every serial run a channel still open belongs to a handler with a pool |
| `PoolRegistry.Registry.Arrive` | cluster-executor/src/secondary.rs:495-534 | the listener is taken, or a new pool made; other jobs are untouched |
| `PoolRegistry.Registry.EndWait` | cluster-executor/src/secondary.rs:501-520 | the wait ends with a notification only if there is one |
| `PoolRegistry.Registry.GiveUp` | cluster-executor/src/secondary.rs:521-529 | without one the listener goes back into the map |
| `PoolRegistry.Registry.TakeStored` | cluster-executor/src/secondary.rs:530-531 | the stored pool is taken out, and in a serial job it is there, whatever other jobs do |
| `PoolRegistry.Registry.PublishListener` | cluster-executor/src/secondary.rs:542-550 | the handler's own listener enters the map |
| `PoolRegistry.Registry.StorePool` | cluster-executor/src/secondary.rs:298-302 | after a receive error the pool enters the map |
| `PoolRegistry.Registry.NotifySuccessor` | cluster-executor/src/secondary.rs:303 | then the listener is notified |
| `PoolRegistry.Registry.RemovePool` | cluster-executor/src/secondary.rs:304-305 | a stop removes the stored pool |
| `PoolRegistry.Registry.RemoveListener` | cluster-executor/src/secondary.rs:306-309 | and then the listener |
| `PoolRegistry.Registry.Leave` | cluster-executor/src/secondary.rs:235-238 | a clean end of stream drops the sender and leaves the listener |
| `ClusterGuarantees.EveryTraceIsAccepted` | cluster-executor/src/primary.rs:46-126 | in every run whose rows can be counted at the start and whenever a node joins no channel, past or present, makes its secondary fail the handshake or report an unexpected message |
| `ClusterGuarantees.AcceptedIffCounted` | cluster-executor/src/primary.rs:46-126 | in every run a channel is rejected if and only if the rows could not be counted when it was opened and more than its opening got through, and from the second round on a current one if and only if they could not be counted |
| `ClusterGuarantees.AcceptedRun` | cluster-executor/src/lib.rs:528-576 | every run keeps each working link opened with the rows counted at a secondary in its loop with the share meant for it, and every other link rejected once told anything |
| `ClusterGuarantees.EveryRowIsAssigned` | cluster-executor/src/split_request.rs:9-45 | at every loop head of a split job without an unrepaired drop each row is assigned to a current sender |
| `ClusterGuarantees.EveryRowIsRead` | cluster-executor/src/primary.rs:57-98 | and from the second loop head on it is read by one of them |
| `ClusterGuarantees.SlicesAreFair` | cluster-executor/src/split_request.rs:47-63 | the slices read are then balanced within one row, and disjoint if and only if there are at least as many rows as secondaries |
| `ClusterGuarantees.AssignedSlicesAreFair` | cluster-executor/src/split_request.rs:47-63 | at every loop head without an unrepaired drop, also the first, the same holds of the slices assigned |
| `ClusterGuarantees.DropIsRepaired` | cluster-executor/src/primary.rs:69-76 | after a drop the rows are divided anew within eleven rounds, unless the primary has crashed |
| `ClusterGuarantees.UncountedRepairIsForgotten` | cluster-executor/src/primary.rs:69-73 | a repair round that cannot count the rows deals nothing, leaves every slice as it was and the last division in force, and remembers no drop but one of this very round |
| `ClusterGuarantees.AssignedIffCounted` | cluster-executor/src/split_request.rs:15-38 | after a round that divides the rows and loses no link, a row is assigned if and only if the rows could be counted or it was assigned before |
| `ClusterGuarantees.CrashesOnlyWithoutSecondaries` | cluster-executor/src/split_request.rs:22-23 | where the rows could always be counted, a round that can count them divides by zero if and only if it looks for nodes, has no secondary left and finds none |
| `DivisionGuarantees.DividedNext` | cluster-executor/src/split_request.rs:9-45 | every step keeps: a link open since the last division has the slice dealt to it there, any other link has none |
| `DivisionGuarantees.AssignedExactly` | cluster-executor/src/split_request.rs:9-45 | in every run a row is assigned if and only if a link to which it was dealt in the last counted division has been open ever since |
| `DivisionGuarantees.AllAssignedIffAllOpen` | cluster-executor/src/primary.rs:46-99 | in every run, with at least as many rows as secondaries in the last division, every row is assigned if and only if none of its links has been closed |
| `DivisionGuarantees.ClosedLeavesOut` | cluster-executor/src/primary.rs:87-97 | the rows of a closed link are assigned to nobody until the next division |
| `DivisionGuarantees.RepairAssignsIffCounted` | cluster-executor/src/primary.rs:69-73 | after a repair that loses no further link every row is assigned if and only if the rows could be counted or no link of the last division had been closed |
| `DivisionGuarantees.ForgottenRepairLeavesRowsOut` | cluster-executor/src/primary.rs:57-98 | from every such state one round before a look-up, losing a link and then not being able to count leaves the job in progress, the flag clear and every row of that link unassigned |
| `DivisionGuarantees.RowsCanBeLeftOut` | cluster-executor/src/primary.rs:29-112 | for every file, every order of secondaries with a row each, and every one of them, a run of a job that goes on with the flag clear and its rows unassigned |
| `DivisionGuarantees.CrashStep` | cluster-executor/src/split_request.rs:22-23 | which rounds divide by zero: both directions, for every state and input |
| `DivisionGuarantees.CrashesExactly` | cluster-executor/src/split_request.rs:13-45 | in every run, the primary divides by zero if and only if a split job starts with countable rows and no node, or meets a round with a drop to repair, countable rows, no secondary left and no node found |
| `DivisionGuarantees.JobsCanCrash` | cluster-executor/src/primary.rs:46-99 | every split job with countable rows and at least one secondary has a run that divides by zero |
| `ClusterGuarantees.NewcomerNeedsTheRows` | cluster-executor/src/primary.rs:59-68 | a node that joins a split job reaches its message loop if and only if the rows could be counted |
| `ClusterGuarantees.RatesAddUp` | cluster-executor/src/primary.rs:132-158 | what a round tells the senders adds up to its requests and to its connections, and no two are told numbers that differ by more than one |
| `ClusterGuarantees.RatesAreTold` | cluster-executor/src/primary.rs:80-86 | every round tells every sender rates |
| `ClusterGuarantees.EndIsHeard` | cluster-executor/src/primary.rs:101-107 | in every run, every secondary that worked on the job and hears its end ends its loop |
| `ChannelOrder.AcceptsTheOrderly` | cluster-executor/src/secondary.rs:212-295 | a secondary accepts a sequence of messages if and only if the metadata comes first, then the request with at most one reset before it, further requests only behind a reset, and nothing behind an end; it has then the share of the last request |
| `ClusterProtocol.PrefixAccepted` | cluster-executor/src/secondary.rs:239-292 | a channel cut short breaks no secondary that the whole channel would not |
| `PrimaryLoop.Loop.constructor` | cluster-executor/src/primary.rs:32-45 | counter, flag and senders before the first link |
| `PrimaryLoop.Loop.InitSenders` | cluster-executor/src/primary.rs:189-198 | opening the links is the start of the protocol |
| `PrimaryLoop.Loop.CreateSenders` | cluster-executor/src/primary.rs:203-225 | exactly the nodes without a link get one |
| `PrimaryLoop.Loop.Pass` | cluster-executor/src/primary.rs:139-152 | each node gets its message or its link fails; exactly the failed ones are listed |
| `PrimaryLoop.Loop.DealRows` | cluster-executor/src/split_request.rs:22-37 | every sender is sent its part of the rows, in iteration order |
| `PrimaryLoop.Loop.ResetRequest` | cluster-executor/src/primary.rs:114-126 | a reset and then the new part go to every sender; it crashes exactly when there is none and rows were counted |
| `PrimaryLoop.Loop.Greet` | cluster-executor/src/primary.rs:60-68 | new nodes get metadata, and then everyone a reset or they the request |
| `PrimaryLoop.Loop.Repair` | cluster-executor/src/primary.rs:69-73 | without new nodes rows are divided anew exactly after a drop |
| `PrimaryLoop.Loop.Refresh` | cluster-executor/src/primary.rs:58-74 | what is sent on a look-up round before the rates |
| `PrimaryLoop.Loop.SendRates` | cluster-executor/src/primary.rs:132-158 | every sender gets its share of both rates |
| `PrimaryLoop.Loop.DropFailed` | cluster-executor/src/primary.rs:87-97 | exactly the failed links are dropped, and the flag is set if there is one |
| `PrimaryLoop.Loop.Exchange` | cluster-executor/src/primary.rs:57-86 | the sends of a round are what the protocol attempts on each channel |
| `PrimaryLoop.Loop.Round` | cluster-executor/src/primary.rs:46-99 | one round is a step of the protocol |
| `PrimaryLoop.Loop.Finish` | cluster-executor/src/primary.rs:101-112 | the end of a job is the end step of the protocol |
| `PrimaryJob.HandleRequest` | cluster-executor/src/primary.rs:29-112 | a whole job is a run of the protocol with a round for each pair of rates up to a stop, with the rows countable or not in each round by itself; it ends completed or crashed, and a secondary rejects its channel if and only if the rows could not be counted when the link was opened and more than the opening got through |
| `SecondaryLoop.CheckForMetadata` | cluster-executor/src/secondary.rs:594-607 | accepts exactly a first metadata message |
| `SecondaryLoop.CheckForRequest` | cluster-executor/src/secondary.rs:570-592 | reads the request after at most one reset, and fails as the automaton does |
| `SecondaryLoop.Serve` | cluster-executor/src/secondary.rs:214-295 | the flags of the message loop follow the automaton |
| `SecondaryLoop.HandleConnection` | cluster-executor/src/secondary.rs:159-295 | a message is found unexpected exactly when the automaton rejects what was read, so never on an accepted channel |
| `WorkDivision.PartsCover` | cluster-executor/src/split_request.rs:47-63 | the ranges cover all rows |
| `WorkDivision.PartsBalanced` | cluster-executor/src/split_request.rs:47-63 | their lengths differ by at most one |
| `WorkDivision.PartsDisjoint` | cluster-executor/src/split_request.rs:47-63 | they are disjoint if and only if there are at least as many rows as ranges |
| `WorkDivision.PartsInOrder` | cluster-executor/src/split_request.rs:47-63 | they lie in the order of the rows from the first to the last without a gap, the longer ones first |
| `WorkDivision.SplitRanges` | cluster-executor/src/split_request.rs:47-63 | the two loops compute those ranges |
| `WorkDivision.SharesAreFair` | cluster-executor/src/primary.rs:160-187 | shares sum to the rate and differ by at most one, the larger ones first |
| `WorkDivision.CalculateReqPerSecondary` | cluster-executor/src/primary.rs:160-187 | the loop computes the shares of both rates |
| `RowReader.CyclesCompose` | cluster-executor/src/request_providers.rs:157-183 | two reads one after the other read what one longer read would |
| `RowReader.ReadAllIsCycle` | cluster-executor/src/request_providers.rs:142-187 | any series of calls reads as many rows of the cyclic sequence as it asks for |
| `RowReader.ReadsAreFair` | cluster-executor/src/request_providers.rs:157-187 | over any series of calls the read counts of two rows differ by at most one |
| `RowReader.SplitRequestFile.Open` | cluster-executor/src/request_providers.rs:121-155 | opening fixes the range and the cursor, and fails exactly on an empty file |
| `RowReader.SplitRequestFile.GetN` | cluster-executor/src/request_providers.rs:117-187 | it ends and returns exactly the next rows of the cyclic sequence, with the cursor in range |
| `StepSchedule.SortSorts` | overload-http/src/rate_spec.rs:115 | the steps are sorted by start, and none is lost or made up |
| `StepSchedule.PartitionCovers` | overload-http/src/rate_spec.rs:116-139 | in a schedule every second up to the last end lies in exactly one step |
| `StepSchedule.CheckSteps` | overload-http/src/rate_spec.rs:102-145 | the validation loop accepts exactly the lists whose sorted steps start at 0 and follow each other in 32-bit arithmetic |
| `StepSchedule.ReadSteps` | overload-http/src/rate_spec.rs:78-145 | a list is read if and only if every step ends after its start and the list is accepted; what is read holds the same steps and is a schedule if and only if one step starts at 0 |
| `StepSchedule.AcceptedIsPartition` | overload-http/src/rate_spec.rs:117-144 | an accepted list is a schedule if and only if a single step starts at 0 |
| `StepSchedule.WrappedStepsAreAccepted` | overload-http/src/rate_spec.rs:127-138 | overlapping steps that are accepted because an end wraps around |
| `StepSchedule.SchedulesAreAccepted` | overload-http/src/rate_spec.rs:102-145 | every arrangement of a schedule's steps is accepted and gives the schedule |
| `StepSchedule.Steps.Next` | cluster-executor/src/rate_spec.rs:42-70 | a look at the current and the next step gives the rate a search of all steps gives |
| `StepSchedule.Generate` | cluster-executor/src/lib.rs:215-226 | the generator's ticks get the rate of the schedule for every second, the last one beyond its end |
| `StepSchedule.RateIsUnique` | cluster-executor/src/rate_spec.rs:42-70 | that rate is unique |
| `SendLoop.FillRequests` | cluster-executor/src/secondary.rs:1000-1020 | with a request to repeat the loop ends and entry i is the original at i modulo their number |
| `SendLoop.FillEndsIffRequests` | cluster-executor/src/secondary.rs:1005-1019 | the loop ends if and only if there is a request or nothing to add |
| `SendLoop.Pair` | cluster-executor/src/secondary.rs:748-761 | every connection pops a request, and there is one for each |
| `SendLoop.SendBundle` | cluster-executor/src/secondary.rs:732-761 | each connection is used once, with the requests repeated in turn |
| `SendLoop.BundleIsLargest` | cluster-executor/src/secondary.rs:892-898 | a pass may ask for the largest number that exceeds neither the requests nor, in a batch, a non-zero number of connections nor both the configured size and a hundredth of the requests and one; at once, nor 65535 |
| `SendLoop.BundleIsPositive` | cluster-executor/src/secondary.rs:892-898 | with a request to send that is at least one connection |
| `SendLoop.EveryPassAsks` | cluster-executor/src/secondary.rs:908-915 | every pass asks for at least one connection and for no more than there are requests left |
| `SendLoop.FullPasses` | cluster-executor/src/secondary.rs:901-980 | when the pool lends all it is asked for, every pass sends a whole bundle or all that is left |
| `SendLoop.HundredBundlesSuffice` | cluster-executor/src/secondary.rs:892-898 | with enough connections a hundred full bundles are enough for every batch |
| `SendLoop.Take` | cluster-executor/src/secondary.rs:692-720 | the connections taken are held through the wait for the provider, whatever other tasks do meanwhile, and nothing is lost by it |
| `SendLoop.Fates` | cluster-executor/src/secondary.rs:748-770 | a bundle with a request that cannot be built loses the connection of each such request, and perhaps others; any other bundle loses none |
| `SendLoop.SendOnce` | cluster-executor/src/secondary.rs:686-770 | the connections a pass takes are all used, with the provider's requests in turn, or all dropped, exactly when the provider is asked and gives no request |
| `SendLoop.SendPasses` | cluster-executor/src/secondary.rs:686-797 | over all passes, what the pool lent is what was used or dropped, and connections are dropped exactly when a call gives no request |
| `SendLoop.SendRequests` | cluster-executor/src/secondary.rs:668-797 | sent plus remaining is always the rate with no underflow; the connections the pool lends over the whole cycle are exactly those used, each for one request, plus those dropped; connections are gone for good if and only if a call made is answered with an error or no request or a dispatched request cannot be built; every pass asks for as much as it may, and when the pool lends what is asked for, requests are given and the clock does not run out, all requests are sent in just as many passes as bundles are needed; a cycle is out of time only if a reading or the number of passes says so |
| `SendLoop.HandleRate` | cluster-executor/src/secondary.rs:801-848 | the pool is resized exactly when the number of connections changed, the accounting holds, and connections are lost if and only if a call is answered with no request or a dispatched request cannot be built |
| `SendLoop.TargetsFollowRates` | cluster-executor/src/secondary.rs:210 | a handler's pool has the size of every rate message if and only if it was taken over with target 0, no message comes, or the first one asks for a connection |
| `RequestFuture.NoPollAfterCompletion` | cluster-executor/src/lib.rs:262-388 | in every sequence of polls no inner future is polled after it completed, and they are polled in the order response, body, assertion |
| `RequestFuture.CountedOnce` | cluster-executor/src/lib.rs:266-271 | the request is counted once, a status once when the response is in, and both by completion; a response time is counted if and only if the response arrived |
| `RequestFuture.StagesMoveForward` | cluster-executor/src/lib.rs:273-354 | the stage never moves back |
| `RequestFuture.CompletesInTwoPolls` | cluster-executor/src/lib.rs:287-341 | inner futures that answer at once complete the future in two polls |
| `RequestFuture.PollingIsAwaiting` | cluster-executor/src/lib.rs:262-388 | for all answers, polling asks, hears and completes as waiting in sequence for the response, its body and the assertion on it would |
| `RequestFuture.AssertionIsMade` | cluster-executor/src/lib.rs:300-327 | a completed future has heard of its Lua assertion if and only if there is an executor, the response arrived and the body was text; the assertion is started exactly then, and once |
| `RequestFuture.ValidNext` | cluster-executor/src/lib.rs:264-388 | every poll keeps counts, timer and the order of polls |
| `RequestFuture.HttpRequestFuture.PollFuture` | cluster-executor/src/lib.rs:264-388 | a poll is the step of the machine and reports completion |
| `RequestFuture.HttpRequestFuture.PollBodyFuture` | cluster-executor/src/lib.rs:287-347 | the body branch, with the assertion on a text |
| `RequestFuture.HttpRequestFuture.PollResponseFuture` | cluster-executor/src/lib.rs:356-386 | the response branch: one status for every outcome |
| `SchemaRoundTrip.SchemaRoundTrips` | datagen/src/lib.rs:154-312 | for every accepted value, printing its schema and parsing again gives the schema back if and only if every array has items of a known type, and fails otherwise |
| `SchemaRoundTrip.FieldsRoundTrip` | datagen/src/lib.rs:168-227 | the same for the properties of an object, at any depth |
| `SchemaRoundTrip.FieldsAreWellFormed` | datagen/src/lib.rs:248-304 | parsed properties have consistent constraints and are in the order of their names, each once |
| `SchemaRoundTrip.GetPutLimits` | datagen/src/lib.rs:47-70 | every keyword of the printed constraints has the value it stands for |
| `SchemaRoundTrip.StatedLimitsAreRead` | datagen/src/lib.rs:358-398 | entries that state consistent constraints, with a constant of the kind its value calls for, are parsed to exactly those |
| `SchemaRoundTrip.UnknownItemsDoNotTravel` | datagen/src/lib.rs:200-213 | for every unknown item type an accepted schema whose print is refused |
| `SchemaCodec.ParseConstraints` | datagen/src/lib.rs:358-398 | the loop over the entries reads each keyword as a look-up would, or fails if one has a wrong value |
| `SchemaCodec.GetConstraints` | datagen/src/lib.rs:306-356 | bounds come in ordered pairs or not at all |
| `SchemaCodec.ParseProperty` | datagen/src/lib.rs:250-301 | one property is parsed by its type |
| `SchemaCodec.ParseArrayProperty` | datagen/src/lib.rs:284-299 | items are parsed under the keyless name |
| `SchemaCodec.ParseProperties` | datagen/src/lib.rs:248-304 | the loop parses all properties in order or fails with the first that fails |
| `SchemaCodec.ParseSchema` | datagen/src/lib.rs:229-246 | the parser of a whole schema |
| `SchemaCodec.ConvertField` | datagen/src/lib.rs:171-224 | the printed form of one schema |
| `SchemaCodec.ConvertToMap` | datagen/src/lib.rs:168-227 | the loop that fills the map prints all schemas |
| `SchemaCodec.PrintSchema` | datagen/src/lib.rs:154-166 | the printer of a whole schema |
| `DataGenerator.GenerateData` | datagen/src/lib.rs:402-420 | whatever the choices, a root schema gives an object with exactly the declared keys and fitting values, anything else null, and it fails only for a schema that is not generable |
| `DataGenerator.FailsIffNotGenerable` | datagen/src/lib.rs:459-481 | some choice makes generation fail if and only if an array, reached through arrays that can have elements, can have one itself and has items of no known type |
| `DataGenerator.AcceptedIsGenerable` | datagen/src/lib.rs:229-246 | an accepted schema meets what the generator asks for; it is generable if its arrays have items of known types, and otherwise fails for some choice exactly when it is not |
| `DataGenerator.GenerateObject` | datagen/src/lib.rs:422-457 | the loop over the fields gives each key once with a value that fits |
| `DataGenerator.GenerateArray` | datagen/src/lib.rs:459-481 | the length is drawn from its range, every element fits, and the unwrap of the keyless item fails only where some choice must make it fail |
| `DataGenerator.GenerateInteger` | datagen/src/lib.rs:483-524 | a constant, a number from a pattern, or a number within its bounds |
| `DataGenerator.GenerateText` | datagen/src/lib.rs:526-569 | a constant, a text from a pattern, or letters in a number drawn from its range |
| `DataGenerator.GenerateField` | datagen/src/lib.rs:425-453 | a value that fits its schema |
| `DataGenerator.TextLengthIsWithin` | datagen/src/lib.rs:556-568 | text lengths stay within bounds for every choice if and only if the lower bound is not negative |
| `DataGenerator.ArrayLengthIsWithin` | datagen/src/lib.rs:463-479 | array lengths do if and only if the upper bound is not negative |
| `DataGenerator.SupportedIsGenerable` | datagen/src/lib.rs:459-481 | schemas with known item types can always be generated from |
| `SchemaMeaning.AcceptedIff` | datagen/src/lib.rs:229-312 | a schema is accepted if and only if it has properties and each, at any depth, has a type, ordered pairs of 64-bit bounds, a pattern that parses, and items or properties or a constant where its type asks for them |
| `SchemaMeaning.ConstantsAreRead` | datagen/src/lib.rs:376-385 | an integer of 64 bits under `constant` is read as that integer, a text as that text, anything else as that value |
| `SchemaMeaning.FitsIffDescribed` | datagen/src/lib.rs:402-569 | what the parsed form of a property fits is exactly what its JSON text describes, at any depth |
| `SchemaMeaning.EveryPropertyIsGiven` | datagen/src/lib.rs:422-457 | the data has exactly the declared properties of a known type, each with data its text describes |
| `SchemaMeaning.ConstantsAreGiven` | datagen/src/lib.rs:483-531 | a text under `constant` is what a property of type string gives, an integer what one of type integer gives, any value what an object without properties gives |
| `SchemaMeaning.GenerateFor` | datagen/src/lib.rs:402-420 | from the JSON text to the data: every accepted schema in which an array that can have elements has items of a known type gives, whatever the choices, an object with exactly the declared keys and the data the text describes |
| `JsonPointer.PointerAddressesItsPath` | datagen/src/template.rs:43-49 | the path written for a leaf, read as a JSON pointer, addresses it if and only if no key has a slash, `~0` or `~1` |
| `JsonPointer.OtherPointersAreLighter` | datagen/src/template.rs:43-49 | otherwise it addresses a path of smaller weight |
| `JsonPointer.IndexRoundTrip` | datagen/src/template.rs:42-44 | positions in arrays are read back from their digits |
| `JsonPointer.DecimalIsPlain` | datagen/src/template.rs:42-44 | a position in an array is always plain, so only keys can make a path miss |
| `JsonPointer.EscapedPointersAddressTheirPath` | datagen/src/template.rs:43-49 | a pointer whose keys are escaped by section 3 of RFC 6901 addresses its path, whatever the keys |
| `Templates.LeafLeads` | datagen/src/template.rs:22-54 | every recorded path leads to the template it was recorded for |
| `Templates.RecordTexts` | datagen/src/template.rs:38 | on plain paths the map holds the text of each template |
| `TemplateFilling.FillingIsExact` | datagen/src/template.rs:74-85 | for every visiting order of the map, filling replaces exactly the templates whatever their values if and only if all keys on the way to them are plain |
| `TemplateFilling.PlainPathsAreFilled` | datagen/src/template.rs:74-85 | on plain paths the result is the data with exactly its templates replaced |
| `TemplateFilling.EscapedPathsAreMissed` | datagen/src/template.rs:76 | otherwise some template is left or something else overwritten |
| `TemplateFilling.FillOne` | datagen/src/template.rs:76-83 | one write adds one template to those filled and changes nothing else |
| `TemplateEngine.ParseTemplatesInner` | datagen/src/template.rs:22-54 | the recursion records the templates of a value in order |
| `TemplateEngine.PopulateData` | datagen/src/template.rs:74-85 | the loop visits every path of the map, in any order, and fills it |
| `TemplateEngine.FillBody` | cluster-executor/src/request_providers.rs:250-256 | a body with plain keys comes back with exactly its templates replaced |
| `LuaText.DecimalRoundTrip` | lua-helper/src/json.lua:106-112 | an integer is read back from its digits |
| `LuaText.Hex4RoundTrip` | lua-helper/src/json.lua:49-51 | a control character is read back from its four hex digits |
| `LuaText.Utf8RoundTrip` | lua-helper/src/json.lua:189-203 | the bytes of a number decode to it, by section 4 of RFC 3629, if and only if it is a Unicode scalar value |
| `LuaText.SingleEscape` | lua-helper/src/json.lua:206-215 | a single escape becomes UTF-8 for its code point if and only if that is no surrogate |
| `LuaText.PairedEscape` | lua-helper/src/json.lua:206-215 | a proper pair becomes UTF-8 for the code point section 7 of RFC 8259 gives it |
| `LuaText.ImproperPairLosesCharacter` | lua-helper/src/json.lua:234-238 | an improper pair never yields the character of its second escape |
| `LuaText.ImproperPair` | lua-helper/src/json.lua:234-238 | a high surrogate before the escape of a letter becomes U+2441 |
| `LuaText.HexIsRead` | lua-helper/src/json.lua:206-208 | a hexadecimal digit is worth its place in 0123456789abcdef or 0123456789ABCDEF |
| `LuaReading.ChrIsRead` | lua-helper/src/json.lua:229-252 | every character of a string is read as section 7 of RFC 8259 says: the eight two-character escapes, escapes of code points and pairs of them, and all others as they are |
| `LuaReading.WordIsRead` | lua-helper/src/json.lua:270-277 | the characters true, false and null before a delimiter are read as those values |
| `LuaReading.QuotationIsRead` | lua-helper/src/json.lua:218-256 | a string of such characters between quotation marks is read as their meanings in a row |
| `LuaReading.TextIsRead` | lua-helper/src/json.lua:365-372 | wherever a JSON text of the grammar of RFC 8259 stands before a delimiter or the end, the decoder gives the value it stands for and stops right behind it |
| `LuaReading.DecodeReadsJson` | lua-helper/src/json.lua:375-385 | the decoder gives every JSON text, with whitespace around and inside it, its value |
| `LuaReading.TrailingCommaIsRead` | lua-helper/src/json.lua:284-302 | it reads a comma before the closing bracket of an array as well |
| `LuaGrammar.ObjectHoldsTheLast` | lua-helper/src/json.lua:332 | an object holds under every name the value of the last member with that name, each name once |
| `LuaRoundTrip.EncodeWritesJson` | lua-helper/src/json.lua:124-131 | what the encoder writes for a value is a JSON text that stands for it |
| `LuaRoundTrip.EscapeInString` | lua-helper/src/json.lua:229-245 | anywhere in a string an escape that is no surrogate is read as UTF-8 for its code point, and reading goes on behind it |
| `LuaRoundTrip.PairInString` | lua-helper/src/json.lua:229-245 | a proper pair is read as UTF-8 for its code point |
| `LuaRoundTrip.ImproperPairInString` | lua-helper/src/json.lua:229-245 | an improper pair is refused or read as something other than the character of its second escape, which is passed over |
| `LuaRoundTrip.DecodeUndoesEncode` | lua-helper/src/json.lua:134-136 | decoding an encoded tree gives the tree back, whatever order its keys are visited in |
| `LuaRoundTrip.ValueRoundTrip` | lua-helper/src/json.lua:365-372 | the same at any place of a longer text, ending where the value ends |
| `LuaRoundTrip.StringRoundTrip` | lua-helper/src/json.lua:101-103 | every byte string is read back from its quoted form |
| `LuaCodec.NextChar` | lua-helper/src/json.lua:165-172 | the first place at or after the index that is in the set, or not in it, or the end |
| `LuaCodec.ReadString` | lua-helper/src/json.lua:218-256 | the loop with its two indices reads what the string parser reads, or fails with it |
| `LuaCodec.ReadWord` | lua-helper/src/json.lua:259-277 | numbers and literals up to the next delimiter |
| `LuaCodec.ReadValue` | lua-helper/src/json.lua:365-372 | the parser chosen by the first character |
| `LuaCodec.ReadArray` | lua-helper/src/json.lua:280-304 | the array loop reads what the recursive parser reads |
| `LuaCodec.ReadKey` | lua-helper/src/json.lua:318-328 | a quoted key and its colon |
| `LuaCodec.ReadEntry` | lua-helper/src/json.lua:318-330 | a key with its value |
| `LuaCodec.ReadObject` | lua-helper/src/json.lua:307-341 | the object loop reads what the recursive parser reads |
| `LuaCodec.DecodeText` | lua-helper/src/json.lua:375-385 | the decoder with its check for trailing text, which gives what the recursive decoder gives; `DecodeReadsJson` says what that is on every JSON text |
| `LuaCodec.QuoteString` | lua-helper/src/json.lua:101-103 | the substitution of the bytes that may not stand in a string gives its quoted text |
| `LuaCodec.EncodeTable` | lua-helper/src/json.lua:59-98 | the joined parts are the encoding of the array or object |
| `LuaCodec.EncodeValue` | lua-helper/src/json.lua:124-131 | the encoder chosen by type, down to strings |

## Left out

- HTTP routes, file upload and conversion, downloads, status paging, environment variables and simple assertions: plumbing around libraries, or easy members.
- Leader election and discovery: the nodes found are an arbitrary input.
- Sockets, readiness checks and scheduling: arbitrary success, failure and interleaving.
- Times: sleep times, the time offset between cycles and `Linear` rates are not modelled, and a cycle of the send loop has time for a given number of passes.
- Elastic pools have no upper bound on opens in flight, so only accounting, reuse and metrics are proved of them.
- The resize of a pool is one event: its only suspension is the wait for the lock on the new connections.
- The pool and its tasks hold connections as values; aliasing and the locks themselves are not modelled.
- Links: a link that failed stays failed, and the number of rows of a file does not change during a job.
- HandOverIsSafe: assumes one connection of a job in the set-up at a time, as the wait of 9.7 seconds intends; `OverlappingArrivalsRunTwoLoops` shows that safety is lost otherwise.
- GetN: row identifiers are 1 up to the number of rows, and the range is not empty, as the division of rows gives it.
- Regular expressions, template evaluation and Lua execution: parameters that may answer anything.
- GenerateData: nothing is said of texts and numbers made from a pattern beyond their type.
- FillBody: says nothing of a body with other keys; `FillingIsExact` does.
- LuaGrammar: of the numbers of JSON only integers are covered, for the reason given under `ReadWord`.
- ReadWord: numbers are integers of at most 14 digits and `tonumber` reads decimal integers only, because the other notations it accepts belong to the Lua library.
- EncodeTable: the errors for circular, mixed and sparse tables are not modelled, because a value here is a finite tree of arrays and string-keyed objects.
- A Lua table holds its string keys as a list in visiting order, and arrays keep the positions of null items.
- SendRequests: a fill loop that spins is reported as an ending; its connections count as lost. Whether a request can be built is a predicate, and which connections of a bundle a panic will cost is fixed when the bundle is dispatched.
- HandOver: at a stop the removal of pool and listener and the drop of the sender are the events `Stop` and `Clean`, without the wait for the removal of the metrics that lies between listener and sender.
- SecondaryLoop: a failed preparation of a request is not modelled. Before the message loop it ends the handler before it asks for a pool; in the loop it is the event `Abandon` of `HandOver`.
- URL placeholders, request providers other than the split file, and the conversion of a request into a generator.
