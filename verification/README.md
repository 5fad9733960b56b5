# Verification of the replicated order book

This project models the C++ node of the replicated order book in Dafny and proves properties of the
model. It covers four parts that work together:

- **The order book** (`book_spec`, `matching`, `matching_laws`, `book_views`, `book_runs`,
  `order_book`): two price-sorted lists of FIFO levels with cached totals next to the map of all
  orders, and the class that updates them in place.
- **Replication and gossip** (`vector_clock`, `crdt_spec`, `delivery`, `replication`,
  `carried_prices`, `closure`, `gossip`, `anti_entropy`, `convergence`, `agreement`, `lost_cancel`,
  `counterexamples`, `diverging_prices`): replicas as a transition system. `Replication` lets any node
  receive what the wire makes of any logged operation, at any time, so messages may be lost,
  duplicated and reordered at will. `Gossip` adds the messages themselves: every packet ever sent may
  be delivered any number of times or never, and arrives as encoding and decoding leave it; a batch is
  applied one operation at a time, and local operations interleave with it.
- **The scheduler and the engine** (`arithmetic`, `golden`, `scheduler`, `scheduler_laws`, `doubles`,
  `floating_point`, `rounding_limit`, `computed_schedule`, `schedule_tables`, `peer_selection`,
  `engine`, `handler_refinement`): the golden-ratio schedule in exact integer arithmetic, its
  double-precision computation, and the gossip engine that uses it.
- **The wire format** (`price_wire`, `codec`, `message_codec`, `wire_layout`, `truncation`, `codec_io`): nested
  length-prefixed encodings with two's complement and 64-bit splitting, and prices scaled in double
  precision.

Each class is proved against functions on values, and the theorems are about those functions: for
example the method `CrdtOrderBook.ApplyRemoteOperation` leaves the value `CrdtSpec.Apply` gives, and
the runs of `Replication` are made of the same `Apply`. `dafny verify dfyconfig.toml` checks
everything.

## What the code does differently from its documentation

- README.md:69 says conflicts are resolved by timestamp with the node id as tiebreaker. The code never
  compares timestamps (`Order::operator<` is unused); a cancel simply closes the order. The model
  follows the code.
- The comment at src/orderbook/orderbook.cpp:194 expects a cancel that arrives early to be handled
  later. It is dropped and yet recorded as seen (`LostCancel`, where the network delivers single
  operations in any order), and no later delivery repairs it: the order stays open there until some
  node cancels it anew or a market order is matched at that node (`LostForGood`). `NoCancelIsLost`
  shows that whole messages with safe pushes never lead there.
- The comment at src/crdt/crdt_orderbook.cpp:65 says other nodes learn about filled orders. Filled
  orders stay in the order map, so nothing is ever logged, and the exact condition for two books to
  agree (`SameOperationsAgreement`, `StrongConvergence`) speaks of each node's own fills.
- README.md:3 promises that all nodes converge to the same book. Prices are cut to ten-thousandths in
  double precision on every trip (src/gossip/message.cpp:35-38 and 103-106), while
  src/api/client_handler.cpp:29 accepts any positive double. An order at 1.00005 is shown at 1.0 by
  the nodes it reaches (`FinePriceDiverges`); even whole ticks such as 0.0003 arrive one less
  (`ThreeBecomesTwo`), and 1.0010 is shown at 1.0010, 1.0009 and 1.0008 along a relay of two trips
  (`ThreePricesShown`). `PriceSurvivesExactly` and `TickSurvivesExactly` say which prices survive,
  `StrongConvergence` and `Convergence` what this means for agreement.
- README.md:98 promises uniform coverage of node pairs over any window. With two nodes one node sends
  rounds 1 and 2, and with 65,537 or more nodes the 32-bit pair count wraps and the last node never
  sends; `FairExactly` says when every node gets its turn.
- The comment at src/gossip/wythoff_scheduler.cpp:52-57 decides pulls by an exact test. Computed in
  double precision, pairs are exact before round 102,334,155 and modes before round 165,580,140, and
  wrong at those rounds (`PairsExactly`, `ModesExactly`).
- Pushing only the last 20 operations can leave a receiver whose clock claims an operation it never
  gets (`TruncatedPushLosesOperation`). `PushKeepsClosureExactly` gives the exact condition, and the
  theorems over network runs assume that condition, `SafePush`, of each push when it is sent.

## Model

| member | source | states |
|---|---|---|
| VectorClocks.VectorClock.Tick | src/crdt/vector_clock.cpp:10-12 | the own entry, absent or not, becomes one more than it counted before; nothing else changes |
| VectorClocks.VectorClock.Merge | src/crdt/vector_clock.cpp:14-18 | in whatever order the other clock is iterated, the result is the pointwise maximum over both key sets |
| VectorClocks.MergedIsLeastUpperBound | src/crdt/vector_clock.cpp:14-18 | merge is the least clock above both arguments |
| VectorClocks.VectorClock.DecideBefore | src/crdt/vector_clock.cpp:20-39 | the two loops with an early exit and a flag decide exactly the strict pointwise order in which an absent entry counts as zero |
| VectorClocks.VectorClock.IsConcurrent | src/crdt/vector_clock.cpp:41-43 | true exactly when neither clock is strictly below the other |
| VectorClocks.BeforeIsStrictOrder | src/crdt/vector_clock.cpp:20-43 | happens-before is irreflexive and transitive; concurrent means incomparable or equal up to zero entries |
| OrderBooks.OrderBook.AddOrder | src/orderbook/orderbook.cpp:5-24 | the order is appended to the level at its price, which is created in place if missing; the index invariant survives exactly when the order is open and its id is not an open order's |
| OrderBooks.OrderBook.RemoveOrderFromLevel | src/orderbook/orderbook.cpp:205-231 | on any book, the two linear searches take the id out of the first level at the price, reduce its total and erase it if empty |
| OrderBooks.OrderBook.CancelOrder | src/orderbook/orderbook.cpp:26-40 | on any book, succeeds exactly on known orders not yet closed, which it marks and takes out of their level |
| OrderBookSteps.WithdrawIsCancel | src/orderbook/orderbook.cpp:26-40 | in a consistent book that in-place removal leaves the index rebuilt without the order |
| OrderBooks.OrderBook.FillFront | src/orderbook/orderbook.cpp:55-73 | one round of the inner loop takes one fill off the front and leaves the rest of the greedy walk to be done |
| OrderBooks.OrderBook.WalkLevels | src/orderbook/orderbook.cpp:48-82 | the nested loops terminate and their fills are those of the greedy walk over the flattened side |
| OrderBooks.OrderBook.MatchMarketOrder | src/orderbook/orderbook.cpp:42-118 | fills and resulting book are those of the pure greedy walk, on either side |
| OrderBooks.OrderBook.GetBestBid | src/orderbook/orderbook.cpp:120-124 | nothing exactly when no bid is open; otherwise the highest price among the open bids with the sum of what remains of those at it |
| OrderBooks.OrderBook.GetBestAsk | src/orderbook/orderbook.cpp:126-130 | nothing exactly when no ask is open; otherwise the lowest price among the open asks with the sum of what remains of those at it |
| BookViews.BestIsBest | src/orderbook/orderbook.cpp:120-130 | in a consistent book the first level of a side is the best of its open orders in that sense |
| OrderBooks.OrderBook.GetSnapshot | src/orderbook/orderbook.cpp:132-151 | the first depth levels of each side, none for a depth of zero or less |
| OrderBooks.OrderBook.GetAllOrders | src/orderbook/orderbook.cpp:153-162 | lists exactly the open orders, each once, in any iteration order of the map |
| OrderBooks.OrderBook.InsertReplicatedOrder | src/orderbook/orderbook.cpp:169-188 | adds any order of an unknown id, open or closed, and changes nothing for a known id |
| OrderBooks.OrderBook.ApplyReplicatedCancel | src/orderbook/orderbook.cpp:190-200 | closes a known open order, changes nothing otherwise, on any book |
| BookIndex.AddKeepsInv | src/orderbook/orderbook.cpp:5-24 | the index invariant is kept if and only if the order is open and its id is not that of an open order |
| BookIndex.CancelKeepsInv | src/orderbook/orderbook.cpp:26-40 | cancelling keeps the index invariant for any id |
| BookIndex.QueuedIsLive | src/orderbook/orderbook.cpp:5-40 | an id is queued on a side exactly when it names an open order of that side |
| BookIndex.RebuildKeepsInv | src/orderbook/orderbook.cpp:205-231 | however orders are reduced or closed, the rebuilt index is consistent again |
| BookIndex.RefreshTwice | src/orderbook/orderbook.cpp:48-82 | rebuilding step by step and rebuilding once for the last states give the same index |
| Matching.FlatIsTheOpenOrders | src/orderbook/orderbook.cpp:49-114 | the queues of a side, best level first, are exactly its open orders, each once, best price first |
| Matching.PriceTimePriority | src/orderbook/orderbook.cpp:5-24 | a new order will be consumed after every order of an equal or better price and before every order of a worse one |
| Matching.WalkIsGreedyPrefix | src/orderbook/orderbook.cpp:48-115 | fills go to the front of the queue in order, at the orders' own prices, all but the last exhaust their order, and they total min(quantity, liquidity) |
| Matching.WalkAmount | src/orderbook/orderbook.cpp:63-68 | the k-th order in the queue gets what those ahead of it leave, up to its size |
| Matching.MatchKeepsInv | src/orderbook/orderbook.cpp:42-118 | matching any quantity keeps the index invariant |
| Matching.MatchConserves | src/orderbook/orderbook.cpp:42-118 | every order loses exactly what the fills say it gave, and the aggressor's own side is untouched |
| SplitInvariance.SplitMarketOrder | src/orderbook/orderbook.cpp:42-118 | q1 then q2 leave the same book and the same amount taken from each order as q1 + q2 |
| Optimality.MarketOrderIsOptimal | src/orderbook/orderbook.cpp:42-118 | a market buy pays the least and a market sell earns the most among all ways of taking the same total from the open opposite orders |
| BookViews.LevelsAgreeWithTally | src/orderbook/orderbook.cpp:120-162 | prices and cached totals of the levels equal what sorting and summing any listing of the open orders gives, so best prices and snapshots do |
| BookViews.SameOrdersSameQuotes | src/orderbook/orderbook.cpp:132-162 | two consistent books with the same open orders show the same prices and totals, whatever their queue orders |
| BookRuns.EveryRunConsistent | src/orderbook/orderbook.cpp:5-231 | after any sequence of adds, cancels, market orders and replicated adds the index is consistent and quotes the tally of the open orders |
| BookRuns.EmptyBookConsistent | src/orderbook/orderbook.cpp:120-130 | the empty book is consistent, so the run theorem applies to every reachable book |
| CrdtBooks.CrdtOrderBook.LocalAddOrder | src/crdt/crdt_orderbook.cpp:7-35 | ticks, adds to the orders exactly the one with the given side, price and quantity, the node's id and the new own tick, and logs one add of it carrying the ticked clock; a consistent book stays so if and only if the quantity is positive |
| CrdtSpec.LocalAddPlaces | src/crdt/crdt_orderbook.cpp:13-32 | field by field, what a local add places and logs; all other orders and the other side stay as they were |
| CrdtSpec.LocalAddOpens | src/crdt/crdt_orderbook.cpp:13-22 | with a positive quantity the open orders grow by exactly that order |
| CrdtBooks.CrdtOrderBook.LocalCancelOrder | src/crdt/crdt_orderbook.cpp:37-57 | an unknown order changes nothing; a closed one still ticks; only a successful cancel is logged |
| CrdtSpec.LocalCancelCloses | src/crdt/crdt_orderbook.cpp:37-57 | a successful cancel closes exactly the order it names and logs one cancel of it at the new tick; of a closed order only the tick remains, of an unknown one nothing |
| CrdtBooks.CrdtOrderBook.LocalMarketOrder | src/crdt/crdt_orderbook.cpp:59-81 | ticks and matches but never logs: the branch that would log a cancel for a filled order is proved unreachable |
| CrdtBooks.CrdtOrderBook.ApplyRemoteOperation | src/crdt/crdt_orderbook.cpp:83-100 | a seen operation changes nothing; any other is merged, applied and logged once |
| Delivery.ArrivedCopy | src/gossip/message.cpp:108-135 | an operation whose clock has its own entry arrives as it was sent, with the price carried over the wire |
| CrdtBooks.CrdtOrderBook.GetOperationsSince | src/crdt/crdt_orderbook.cpp:107-119 | exactly the logged operations whose clock is neither strictly below nor equal, as a raw map, to the peer's, in log order |
| CrdtSpec.SinceSifts | src/crdt/crdt_orderbook.cpp:111-116 | the answer is the log, in order and with its multiplicities, without the operations whose clock is strictly below the peer's or is the very same map |
| CrdtSpec.SiftedMembers | src/crdt/crdt_orderbook.cpp:113 | so an operation is in the answer if and only if it is logged and its clock is neither |
| CrdtSpec.BatchLogged | src/crdt/crdt_orderbook.cpp:83-100 | applying a batch logs, once each, exactly the operations whose ids were new, and then holds every id of the batch |
| Replication.RunKeepsClockInv | src/crdt/crdt_orderbook.cpp:7-100 | over every run with arbitrary loss, duplication and reordering: log ids are distinct and are the seen set, clocks dominate all logged clocks, own ticks of one origin are distinct, nobody knows more ticks of a node than the node |
| Replication.ClocksCharacteriseCausality | src/crdt/vector_clock.cpp:20-39 | for distinct operations happens-before of their clocks is causal precedence through local order and log receipt, in both directions |
| Replication.VectorClockTheorem | src/crdt/vector_clock.cpp:10-39 | the same in every run, although failed cancels and market orders tick without logging |
| Replication.TransitIsCopy | src/gossip/message.cpp:121-135 | however often an operation was relayed, what arrives differs from what was made in the price alone: every clock in a run contains its own id and is restored as it was |
| CarriedPrices.RunKeepsPrices | src/gossip/message.cpp:35-38 | in every run each copy of an operation has its original price at its origin and the price of one or more trips everywhere else |
| CarriedPrices.SamePriceExactly | src/gossip/message.cpp:103-106 | an origin and another holder have the same price if and only if it survives a trip; a price that survives is the same everywhere |
| Closure.StepKeepsClosed | src/crdt/crdt_orderbook.cpp:83-100 | a step that applies no operation ahead of its causes keeps every node causally closed |
| Closure.ClockSummarisesLog | src/crdt/crdt_orderbook.cpp:107-119 | in a closed world a node's clock covers an operation if and only if the node holds it |
| Closure.AnswerComplete | src/crdt/crdt_orderbook.cpp:107-119 | whatever the answer to a closed requester leaves out, the requester holds |
| Closure.AnswerDeliverable | src/crdt/crdt_orderbook.cpp:107-119 | the answer to a closed requester can be applied in order without running ahead of causes, and so can any prefix |
| Closure.PushKeepsClosureExactly | src/gossip/gossip_engine.cpp:152-157 | a push of the last 20 operations, delivered at any later time, leaves the receiver closed if and only if it holds by then every dropped operation that a pushed one reaches |
| Closure.SuffixDeliverable | src/gossip/gossip_engine.cpp:152-157 | under that condition the push is deliverable operation by operation |
| Gossip.NetRunKeeps | src/gossip/gossip_engine.cpp:118-267 | over every run of the lossy, duplicating, reordering network with safe pushes, all nodes, batches in progress, packets in transit and remembered clocks stay causally sound after every single operation |
| Gossip.CausalClosure | src/gossip/gossip_engine.cpp:186-267 | in such runs a node holds an operation if and only if its clock covers it |
| AntiEntropy.AntiEntropyComplete | src/gossip/gossip_engine.cpp:250-264 | after a whole request, answer and batch, with anything interleaved, the requester holds everything the responder held when it answered |
| AntiEntropy.GatherScatter | src/gossip/gossip_engine.cpp:250-264 | one node pulling from all others and then all others from it makes everything made before held by everyone, and all logs equal as sets if nothing was made meanwhile |
| HandlerRefinement.HandlerIsNetworkSteps | src/gossip/gossip_engine.cpp:186-267 | handling a message in one go is a sequence of network steps reaching the same state and the same reply |
| Convergence.RunKeepsBookInv | src/crdt/crdt_orderbook.cpp:7-100 | in every run, whatever the network did, each order at a node is fixed by the add as it arrived there, by whether a cancel came after it in that node's log, and by the node's own fills |
| Convergence.SameOperationsAgreement | src/crdt/crdt_orderbook.cpp:83-100 | two nodes holding the same operations have the same open orders if and only if every order they know is closed at both, or filled equally far and held at the same price at both |
| Convergence.CancelsAreEffective | src/orderbook/orderbook.cpp:190-200 | under causal delivery a cancel in the log has taken effect, always |
| Convergence.CancelFindsOrder | src/orderbook/orderbook.cpp:193-194 | under causal delivery a cancel about to be applied finds its order |
| Convergence.NoCancelIsLost | src/orderbook/orderbook.cpp:193-194 | in every run with safe pushes the unknown-order branch of the replicated cancel is never taken |
| Convergence.StrongConvergence | src/crdt/crdt_orderbook.cpp:83-100 | under causal delivery two nodes holding the same operations have the same open orders if and only if their own market orders filled every uncancelled order equally far and those not taken whole are held at the same price |
| Convergence.AgreementByOriginalPrices | src/gossip/message.cpp:35-38 | by the prices the orders were placed at: it is enough that uncancelled orders are filled alike and, while open, have prices that survive the wire; for orders placed at one of the two nodes this is also necessary |
| Convergence.Convergence | src/crdt/crdt_orderbook.cpp:59-100 | so in every run with safe pushes, at every moment, such nodes have the same open orders and show the same prices and totals, and no less will do for the orders either placed |
| Agreement.ClusterAgrees | src/gossip/gossip_engine.cpp:250-264 | after gather and scatter every two nodes hold the same operations, and agree under just those conditions on fills and prices |
| LostCancels.LostCancel | src/orderbook/orderbook.cpp:190-200 | for any placed and cancelled order, receiving the two operations in reverse leaves both nodes with the same operations and the order open at one of them |
| LostCancels.LostForGood | src/orderbook/orderbook.cpp:193-194 | from then on, whatever is made, matched elsewhere or delivered, the order stays open there and closed at its origin, until some node cancels it anew or a market order is matched there |
| DivergingPrices.PushedPrice | src/gossip/message.cpp:35-38 | an order at any price, placed at one node and pushed to another: shown at both with its side and quantity, same operations, no market order, and the same open orders if and only if the price survives the wire |
| DivergingPrices.FinePriceDiverges | src/api/client_handler.cpp:21-31 | in particular 1.00005, shown above 1.0 at one node and as 1.0 at the other |
| DivergingPrices.RelayedPrice | src/gossip/gossip_engine.cpp:213-215 | along a chain of any length the node at distance h shows the price of h trips, all holding the same single operation |
| DivergingPrices.ThreePricesShown | src/gossip/message.cpp:103-106 | three nodes hold the same operation and show 1.0010, 1.0009 and 1.0008 |
| Counterexamples.TruncatedPushLosesOperation | src/gossip/gossip_engine.cpp:152-157 | a run in which a push of 20 out of 21 operations leaves a clock covering an operation its node lacks; no answer to that clock or a later one contains it |
| GoldenLaws.FormMeansPhi | src/gossip/wythoff_scheduler.cpp:11-12 | the integer form m*m - m*k - k*k decides on which side of k times the golden ratio m lies |
| Golden.NeverZero | src/gossip/wythoff_scheduler.cpp:7-10 | no multiple of the golden ratio is a whole number: its irrationality, by descent |
| Golden.FloorPhi | src/gossip/wythoff_scheduler.cpp:12 | the exact whole part of k times the golden ratio, fixed by two sign conditions |
| Golden.CeilDivPhi | src/gossip/wythoff_scheduler.cpp:57 | the exact candidate ceil(n/phi), fixed by two sign conditions |
| Scheduler.DecodePairBijective | src/gossip/wythoff_scheduler.cpp:15-18 | pair indices and ordered pairs of distinct nodes correspond one to one |
| Scheduler.NoSelfGossip | src/gossip/wythoff_scheduler.cpp:6-21 | every scheduled pair joins two different existing nodes, even where the 32-bit pair count wraps |
| Scheduler.BeattyPartition | src/gossip/wythoff_scheduler.cpp:23-28 | a round is a pull if and only if it is floor(k*phi) for some k >= 1, and a push if and only if it is floor(k*phi^2) for some k >= 1: one of the two, never both |
| Scheduler.CandidateSuffices | src/gossip/wythoff_scheduler.cpp:52-59 | if any k gives floor(k*phi) = n, the single candidate that is tried does |
| SchedulerLaws.ExactPullCount | src/gossip/wythoff_scheduler.cpp:23-28 | the number of pulls in rounds 1..n is floor((n+1)/phi), hence within one of n/phi |
| SchedulerLaws.EveryNodeSends | src/gossip/wythoff_scheduler.cpp:11-18 | from three nodes on and without wrap, any n*(n-1) consecutive rounds contain one sent by any given node |
| SchedulerLaws.FairExactly | src/gossip/wythoff_scheduler.cpp:11-18 | for every 32-bit node count from two on, that fairness holds if and only if there are at least three nodes and the pair count does not wrap |
| SchedulerLaws.LastNodeNeverSends | src/gossip/wythoff_scheduler.cpp:11 | where the 32-bit pair count wraps, the last node sends in no round at all |
| SchedulerLaws.NeverPeriodic | src/gossip/wythoff_scheduler.cpp:6-21 | for every cluster size and every period, from any round on, some round differs from the one a period later |
| SchedulerLaws.LinearDrift | src/gossip/wythoff_scheduler.cpp:11-13 | were the schedule periodic, floor(r*phi) would advance by a constant step |
| ComputedSchedule.ConstantsAreDoubles | src/gossip/wythoff_scheduler.h:19 | the two constants used are the doubles nearest to the literal and to its computed inverse |
| RoundingLimit.UnitsAreFibonacci | src/gossip/wythoff_scheduler.cpp:12 | the multiples of the golden ratio that come closest below a whole number are exactly those of Fibonacci numbers of even index |
| RoundingLimit.FloorExactBeforeFirstWrong | src/gossip/wythoff_scheduler.cpp:12 | before round 102,334,155 the computed whole part is exact, whichever way the product is rounded |
| ComputedSchedule.PairsExactly | src/gossip/wythoff_scheduler.cpp:11-18 | for every node count, the computed pairs of rounds 1 to R are all exact if and only if R < 102,334,155 |
| ComputedSchedule.PairMiscomputed | src/gossip/wythoff_scheduler.cpp:12-18 | at round 102,334,155 the computed pair is wrong for every node count |
| ComputedSchedule.ModesExactly | src/gossip/wythoff_scheduler.cpp:52-59 | the computed modes of rounds 1 to R are all exact if and only if R < 165,580,140, although the candidate goes wrong earlier |
| RoundingLimit.FloorWrongAtFirstWrong | src/gossip/wythoff_scheduler.cpp:12 | at round 102,334,155 the computed whole part is one too large, whichever way the product is rounded |
| ScheduleTables.PrecomputeSchedule | src/gossip/wythoff_scheduler.cpp:34-41 | the pairs of the given rounds, in order |
| ScheduleTables.CoverageMatrix | src/gossip/wythoff_scheduler.cpp:43-50 | each entry counts exactly the rounds that scheduled that pair |
| ScheduleTables.OccurrencesCount | src/gossip/wythoff_scheduler.cpp:45-48 | those counts are the numbers of rounds from 1 on with that pair |
| ScheduleTables.CoverageConserved | src/gossip/wythoff_scheduler.cpp:43-50 | the entries sum to the number of rounds and the diagonal is zero |
| SchedulerLaws.NumPairsPositive | src/gossip/wythoff_scheduler.cpp:11-13 | for 2 <= n < 2^32 the 32-bit pair count is never zero although it may wrap, so the remainder is always defined |
| PeerSelection.SelectionApproaches | src/gossip/gossip_engine.cpp:289-304 | a round-robin selection is a live peer and comes strictly closer to any live peer it does not reach |
| PeerSelection.RoundRobinFair | src/gossip/gossip_engine.cpp:289-304 | every live peer is selected within as many selections as there are places to it, and no dead peer before |
| PeerSelection.SortUniqueEffect | src/gossip/gossip_engine.cpp:37-43 | sorting and removing duplicates gives a strictly ascending list of the same ids |
| PeerSelection.DictionaryOrder | src/gossip/gossip_engine.cpp:37-43 | ascending means in dictionary order |
| PeerSelection.SameMembersSameList | src/gossip/gossip_engine.cpp:35-43 | nodes with the same membership compute the same index list, in whatever order they list their peers |
| PeerSelection.SenderGetsRealPeer | src/gossip/gossip_engine.cpp:306-339 | with distinct ids the scheduled sender gets the scheduled receiver, a real peer other than itself, and any other node gets none |
| PeerSelection.ExactlyOneSender | src/gossip/gossip_engine.cpp:306-339 | in every round exactly one node of a cluster sends, to another node of the cluster |
| PeerSelection.EveryMemberSends | src/gossip/gossip_engine.cpp:306-339 | in a cluster of three or more, every node sends to a real peer in any n*(n-1) consecutive rounds |
| Engines.GossipEngine.constructor | src/gossip/gossip_engine.cpp:15-51 | the own index is the place of the own id in the sorted list of all ids |
| Engines.GossipEngine.SelectRandomPeer | src/gossip/gossip_engine.cpp:269-287 | a live peer if there is one, any peer if none is alive, none only without peers |
| Engines.GossipEngine.SelectRoundRobinPeer | src/gossip/gossip_engine.cpp:289-304 | the loop stops at the next live peer round the circle, or back at the start if all are dead |
| Engines.GossipEngine.SelectWythoffPeer | src/gossip/gossip_engine.cpp:306-339 | advances the round and returns the schedule's choice for this node, with the round's mode |
| Engines.GossipEngine.DoGossipRound | src/gossip/gossip_engine.cpp:118-168 | at most one message, to the host and port of the peer the strategy selects, with clock, mode and operations as the network model sends them |
| Engines.RoundSends | src/gossip/gossip_engine.cpp:138-167 | under the schedule a round sends an empty pull if and only if it is the whole part of a multiple of the golden ratio, and a push otherwise; other strategies push-pull; a push carries the log, or its last 20 operations beyond that |
| Engines.GossipEngine.MarkHeard | src/gossip/gossip_engine.cpp:187-208 | the first peer with the sender's id or host is alive and has the sender's id, no other changes; something is sent if and only if that peer was dead |
| Engines.HearingRevives | src/gossip/gossip_engine.cpp:191-205 | host and port are kept, and what a revival sends is one full request with the node's clock to that peer's address |
| Engines.GossipEngine.ApplyBatch | src/gossip/gossip_engine.cpp:213-215 | the loop leaves the node as applying the operations one after another does |
| Engines.GossipEngine.HandleMessage | src/gossip/gossip_engine.cpp:186-267 | peer table, replica and everything sent, for every message type: pushes, push-pulls and anti-entropy answers leave every id they carry held and other messages leave the replica alone; the reply is computed after the batch is applied and goes to the sender's address |
| GossipSpec.BatchTaken | src/gossip/gossip_engine.cpp:211-262 | exactly pushes, push-pulls and anti-entropy answers have their operations applied, all of them |
| GossipSpec.AnsweredExactly | src/gossip/gossip_engine.cpp:217-260 | a pull or push-pull is answered if and only if some logged operation is neither strictly below nor at the sender's clock, by a push of all such, cut to 20 for a push-pull; an anti-entropy request is always answered with all of them; nothing else is |
| GossipSpec.SameClockNotAnswered | src/crdt/crdt_orderbook.cpp:113 | an operation made at the very clock the requester has is not sent to it again |
| GossipSpec.OutgoingCarries | src/gossip/gossip_engine.cpp:148-166 | what a message a node sends on its own account carries, by its type |
| Wire.NetworkOrder | src/gossip/message.cpp:19-23 | a 32-bit word is written most significant byte first |
| WireLayout.WordOrder | src/gossip/message.cpp:25-28 | a 64-bit word is written high half first, hence most significant byte first throughout |
| WireLayout.FirstByte | src/gossip/message.h:7-14 | the first byte of an encoding is 1 to 6 for the six message types, in their order |
| WireLayout.FirstByteRead | src/gossip/message.cpp:185 | and is read as those types |
| WireLayout.OperationByte | src/gossip/message.cpp:51-52 | the first byte of an operation is 0 exactly for an add and 1 exactly for a cancel |
| WireLayout.OrderBytes | src/gossip/message.cpp:40-49 | an order with negative quantity, byte by byte |
| WireLayout.OperationBytes | src/gossip/message.cpp:51-62 | a cancel with its length-prefixed clock, byte by byte |
| WireLayout.MessageBytes | src/gossip/message.cpp:150-179 | a push with one operation, byte by byte, total length included |
| Wire.Int64Back | src/gossip/message.cpp:40-49 | signed 64-bit numbers survive being written as unsigned words |
| Wire.StringBack | src/gossip/message.cpp:95-101 | a string comes back cut to its length modulo 2^16, whole if and only if shorter than that |
| ClockCodec.ClockBack | src/crdt/vector_clock.cpp:92-130 | whatever the iteration order, a clock comes back with its own entry added if it was absent |
| ClockCodec.RestoredSame | src/crdt/vector_clock.cpp:112 | so it comes back unchanged if and only if it contains its own node id |
| MessageCodec.OrderBack | src/gossip/message.cpp:108-119 | an encoded order is read back with its price as one trip in double precision leaves it, ending where the encoding ends |
| MessageCodec.OpBack | src/gossip/message.cpp:121-135 | the same for operations with their nested, length-prefixed clocks |
| MessageCodec.MessageBack | src/gossip/message.cpp:181-202 | reading an encoded message, with anything behind it, consumes exactly the encoding and gives the message, up to carried prices and restored clocks |
| MessageCodec.RoundTripExactly | src/gossip/message.cpp:150-202 | in double precision the round trip is exact if and only if all prices survive a trip and all clocks contain their own id |
| MessageCodec.LengthField | src/gossip/message.cpp:157-176 | the length written over the placeholder is the size of the whole encoding |
| Truncation.StableMessage | src/gossip/message.cpp:181-202 | a message once read is read the same whatever bytes follow |
| Truncation.CutEncodingNeverDecodes | src/gossip/message.cpp:140-142 | no proper prefix of an encoding decodes to any message |
| WireIO.Writer.WriteString | src/gossip/message.cpp:30-33 | appends the 16-bit length and the bytes |
| WireIO.Writer.WriteOrder | src/gossip/message.cpp:40-49 | appends the order's encoding |
| WireIO.Writer.WriteOperation | src/gossip/message.cpp:51-62 | appends the operation's encoding for some iteration order of its clock |
| WireIO.SerializeClock | src/crdt/vector_clock.cpp:57-90 | gives the clock's encoding for some iteration order that lists every entry once |
| WireIO.Serialize | src/gossip/message.cpp:150-179 | placeholder, body and back-patching give the message's encoding for some iteration orders of its clocks |
| WireIO.Reader.ReadString | src/gossip/message.cpp:95-101 | reads a string or refuses to pass the end |
| WireIO.Reader.ReadOneOrder | src/gossip/message.cpp:108-119 | reads an order field by field or refuses to pass the end |
| WireIO.Reader.ReadOperation | src/gossip/message.cpp:121-135 | reads an operation, moving on by the clock's declared length |
| WireIO.DeserializeClock | src/crdt/vector_clock.cpp:92-130 | the unchecked loop reads the clock that lies in the data |
| WireIO.Deserialize | src/gossip/message.cpp:181-202 | reads a whole message or refuses to pass the end, for all data on which no unchecked read does |
| PriceWire.SentTicksExactly | src/gossip/message.cpp:35-38 | t ten-thousandths are sent for a price if and only if the exact product lies at most half a double's gap below t and more than that below t + 1 |
| PriceWire.TickSurvivesExactly | src/gossip/message.cpp:103-106 | a price of t ticks, t < 2^52, comes back the same or, under one integer condition on t, as t - 1 ticks |
| PriceWire.LowLeadingBitsSurvive | src/gossip/message.cpp:103-106 | it never loses when the leading bits of t are below 10000 / 2^13 |
| PriceWire.PriceSurvivesExactly | src/gossip/message.cpp:35-38 | the positive doubles that survive are those nearest to a number of ticks that does not lose one |
| PriceWire.Mirrored | src/gossip/message.cpp:35-38 | a negative price is sent and read back as the mirror image of the positive one |
| PriceWire.TripsReturnExactly | src/gossip/message.cpp:103-106 | after any number of trips a price is what it was if and only if it survives the first |
| PriceWire.ThreeBecomesTwo | src/gossip/message.cpp:35-38 | the price 0.0003 arrives as 0.0002 |
| PriceWire.TwoTripsLoseTwo | src/gossip/message.cpp:103-106 | 1.0010 becomes 1.0009 on one trip and 1.0008 on two |

## Left out

- Sockets, DNS, threads, sleeping, configuration, logging and the client interface: input and output only; the network is the set of packets sent.
- Locks: every replica method is one step; the message handler's loop over a batch is one step per operation (`Gossip.ApplyNext`).
- Unique ids are parameters required to be new; random choices are parameters or nondeterministic.
- Peer timeouts and the clock time of the last message: which peers are alive is an input. The renaming of peers on receipt is modelled in `Engines`, while the laws about indices assume stable distinct ids.
- Phase offsets (`get_phase_offset`): they only delay rounds.
- Uniform coverage of pairs within 25 percent (tests/test_wythoff_scheduler.cpp:37-54): an equidistribution estimate; sender fairness and exact mode counts are proved instead.
- Pointers from level queues to orders are modelled by the ids they point at, `std::map` by a sorted sequence of levels, and unordered maps by maps iterated in any order.
- Copies of levels in snapshots hold pointers to orders in the implementation; here they are values.
- Unsigned 64-bit counters and signed 64-bit quantities do not wrap outside the codec; the 32-bit pair count does.
- Prices are real numbers that the wire scales and rounds as doubles do, with an unbounded exponent: NaN, infinities, overflow and underflow are not modelled, and the exact survival condition is stated below 2^52 ticks. Levels compare prices as reals, which for doubles is the same.
- Delivery carries operations whatever their size; strings of 65,536 bytes or more, which the codec cuts (`Wire.StringBack`), and quantities outside 64 bits do not occur in replication runs.
- Floating-point conversion of values outside the 64-bit range: the encoder requires prices in range.
- The uninitialised order field of a cancel operation is an arbitrary order; encoding requires it to have the ranges of its types.
- An order side byte other than 0 and 1 is read as a sell, which is how the book treats it; unknown operation and message codes are kept as codes.
- Reads past the end of the data by `VectorClock::deserialize` have the outcome `Undefined`; nothing is said about them, and the reading methods require their absence.
- CrdtBooks.CrdtOrderBook.LocalMarketOrder: requires a consistent book, as the matching theorems do; `BookIndex.AddKeepsInv` says which adds would break it, and `Convergence.RunKeepsBookInv` that no run contains them.
- Gossip.CausalClosure: assumes safe pushes, and so do the other theorems over network runs; without that assumption it is false (`Counterexamples.TruncatedPushLosesOperation`).
- Frontend, bridge, scripts and dashboards.
