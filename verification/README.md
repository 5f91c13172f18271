# Verified model of the benchmark's matching, replay and telemetry

A Dafny model of the parts of a trading-engine benchmark that decide its scores: the reference
matching engine, the example contestant engine, the load bot that drives a contestant, the validator
that replays and compares fills, the ingester that windows latency events, the score formulas and the
event codec. `dafny verify dfyconfig.toml` checks everything.

## How it is built

Code that updates state in place is modelled by classes and loops (`HeapList`, `EngineObject`,
`ContestantEngine`, `ContestantServer`, `Validation`, `IngesterObject`, `BotObject`). Each of their
methods is proved to do to the object's value, `View()`, what a function on values does
(`ReferenceEngine`, `ListEngine`, `IngesterRun`, `BotProtocol`), and the theorems are about
those functions, over whole runs. Code whose parts take turns at awaits is modelled as the steps
between awaits, in any interleaving.

The modules, roughly from the bottom up:

- `Trading`, `Bags`, `Heapq`: orders, prices with both infinities, sort keys; push and pop on any list.
- `ReferenceEngine`, `EngineInvariants`, `Conservation`: the reference engine on values, index
  agreement, conservation of quantity.
- `NaiveEngine`, `Arrival`, `Refinement`, `Priority`: the rule the engine is for - scan everything,
  take the best-priced, oldest order - and the proof that the heap engine refines it.
- `MarketOrders`: when a market order leaves a remainder.
- `FillTerms`, `ContestantTerms`: parties, price and quantity of every fill of both engines, where
  remainders rest, and what the contestant does on every stream.
- `Inversion`, `CancelPriority`, `CancelWitness`: what a cancel that only filters does to priority.
- `ListEngine`, `ListInvariants`, `TwoEngines`: the example contestant, and exactly when it agrees.
- `HeapList`, `EngineObject`, `ContestantEngine`, `ContestantServer`: both engines and the contestant's
  connection handler with mutable objects.
- `BotWorkload`, `BotContestant`: what each engine makes of the load bot's stream.
- `FillDiff`, `Validation`: comparing fills and judging a submission.
- `Submissions`, `ContestantVerdict`, `RunWitnesses`: exactly when the example contestant is rated 1, and
  runs that show which hypotheses that and the engines' agreement need.
- `BotProtocol`, `BotObject`, `EndToEnd`: the bot's send and receive tasks, and what a whole run is
  worth to the validator.
- `Windows`, `RowPipeline`, `IngesterRun`, `IngesterObject`: the ingester's counters, queue and batches,
  and whole runs of its three tasks.
- `Scoring`, `EventCodec`: score formulas over exact numbers, and the event codec.

## Where the code and its documentation differ

The model follows the code.

- Cancelling filters the heap lists without restoring heap order
  (services/validator/matching_engine.py:66-67), so price-time priority can be lost.
  `CancelPriority.CancelKeepsPriorityInRunsIff` gives the exact condition under which it is not, at any
  point of any run.
- docs/DESIGN_DOCUMENT.md:158 says the unfilled part of a market order is cancelled; the engine lets
  it rest (services/validator/matching_engine.py:58-60, 106-107). `MarketOrders.MarketOrderRestsIff` says
  when there is an unfilled part, and `FillTerms.MarketRemainderIsTakenAt` at what price it trades later.
- The example contestant's comment says best price first; it takes the worst price first, because the
  sort key follows the incoming side (examples/real_matching_engine/server.py:53-58). README.md:36 of
  the repository calls it 100 % correct; after 10k slots of the bot's stream the match rate
  is 1/k (`Validation.ContestantOnBotRounds`). `ContestantVerdict.ContestantScoresOneIff` says on which
  streams it is 1.
- The published error rate divides by events plus errors (services/ingester/main.py:115-116), while
  docs/MEASUREMENT.md:81 divides by attempts, and every failed attempt is an event already
  (`Windows.RateIsDocumentedIff`, `Windows.TotalFailureIsHalved`).
- Events that fall between a snapshot and the reset of its window are counted in no row
  (services/ingester/main.py:109, 161). `Windows.EventsAreAccounted` gives the exact balance and
  `Windows.EventIsLost` a run.
- The documented stability formula has no caps (shared/scoring.py:25-26).

## Model

| member | source | states |
|---|---|---|
| `Heapq.Push` | services/validator/matching_engine.py:101-109 | Pushing adds exactly the one order, on any list at all. |
| `Heapq.Pop` | services/validator/matching_engine.py:86-89 | Popping takes exactly the first order out of any non-empty list. |
| `Heapq.PushKeepsHeap` | services/validator/matching_engine.py:101-109 | Pushing an order on a heap-ordered list leaves it heap-ordered (push and pop are defined on every list, heap or not). |
| `Heapq.PopKeepsHeap` | services/validator/matching_engine.py:86-89 | Popping a heap-ordered list leaves it heap-ordered. |
| `Heapq.RootIsLeast` | services/validator/matching_engine.py:79-80 | Every element of a heap-ordered list ranks no better than the first. |
| `HeapList.SiftDownList` | services/validator/matching_engine.py:101-109 | The loop that moves a new order towards the root in place computes the sift function on the orders' values and keeps the multiset of order objects. |
| `HeapList.SiftUpList` | services/validator/matching_engine.py:86-89 | The loop that moves smaller children into the hole left by a pop, down to a leaf and back, computes the pop function on the orders' values and keeps the multiset of order objects. |
| `HeapList.HeapPush` | services/validator/matching_engine.py:101-109 | Pushing an order object: the list afterwards shows the pushed value list, and holds the old objects and the new one. |
| `HeapList.HeapPop` | services/validator/matching_engine.py:86-89 | Popping: the first object comes out, the list afterwards shows the popped value list and holds the other objects. |
| `HeapList.BookList.PopHead` | services/validator/matching_engine.py:86-89 | In-place pop of a book: the head is returned and the book's values become the popped ones. |
| `HeapList.BookList.PushItem` | services/validator/matching_engine.py:101-109 | In-place push on a book. |
| `HeapList.BookList.PutBack` | services/validator/matching_engine.py:101-104 | What is left of a traded order goes back by a push, and nothing happens if nothing is left. |
| `HeapList.BookList.RemoveId` | services/validator/matching_engine.py:66-67 | Filtering a book in place removes exactly the orders of that id and keeps the order of the rest; nothing restores heap order. |
| `HeapList.TradeBest` | services/validator/matching_engine.py:89-104 | Both parties of a trade lose the traded quantity in place, and the resting one goes back into the list only with a remainder. |
| `EngineObject.MatchingEngine.constructor` | services/validator/matching_engine.py:34-39 | A new engine is empty: no books, no index, no fills, counter at zero. |
| `EngineObject.MatchingEngine.NextTs` | services/validator/matching_engine.py:41-43 | The shared counter goes up by one and its new value is returned. |
| `EngineObject.MatchingEngine.MatchHead` | services/validator/matching_engine.py:79-104 | One pass of the loop on the mutable engine is one step of the value-level match, on every book, and makes the termination measure smaller. |
| `EngineObject.MatchingEngine.MatchLoop` | services/validator/matching_engine.py:79-104 | The while loop ends on every book, heap-ordered or not, in the state the value-level match ends in, and the fill log grows by exactly the new fills. |
| `EngineObject.MatchingEngine.MatchAgainst` | services/validator/matching_engine.py:75-110 | After the loop the remainder rests in the order's own book or its id leaves the index; both books, index, log and counter are what the value-level match gives. |
| `EngineObject.MatchingEngine.AddLimit` | services/validator/matching_engine.py:45-56 | Adding a limit order to the mutable engine gives the value-level successor state and returns exactly its new fills, with no assumption on ids. |
| `EngineObject.MatchingEngine.AddMarket` | services/validator/matching_engine.py:58-60 | A market order is a limit at plus infinity (buy) or zero (sell); its remainder rests. |
| `EngineObject.MatchingEngine.CancelById` | services/validator/matching_engine.py:62-68 | Cancel reports whether the id was indexed, and filters both lists without restoring heap order. |
| `EngineObject.MatchingEngine.IndexedObjectsRest` | services/validator/matching_engine.py:55-110 | Where the engine's value has an exact index, the object index maps every resting order's id to that very object, and every indexed object rests under its own id. |
| `EngineObject.MatchingEngine.SameNumberSameObject` | services/validator/matching_engine.py:41-53 | No two order objects the engine has made share a sequence number. |
| `EngineInvariants.ReplayKeepsValid` | services/validator/matching_engine.py:45-110 | Index agreement is kept by every run with ids fresh while live, cancels as written included. |
| `EngineInvariants.IndexIsExact` | services/validator/matching_engine.py:55-110 | In every reachable state with ids fresh while live the index keys are exactly the resting ids; each rests once, on its own side, with positive quantity, under the sequence number the index holds (the object fact is in EngineObject.MatchingEngine.IndexedObjectsRest). |
| `EngineInvariants.BestIsIndexed` | services/validator/matching_engine.py:85-87 | The branch that drops an unindexed head is never taken in such runs. |
| `EngineInvariants.RunKeepsTaker` | services/validator/matching_engine.py:99-109 | Matching changes nothing about the incoming order but its quantity. |
| `Conservation.RunsConserveQuantity` | services/validator/matching_engine.py:45-110 | For any choice of ids and sides, over any run: submitted quantity equals traded plus resting plus cancelled quantity (orders without positive quantity submit, and leave, nothing). |
| `Conservation.SidesBalance` | services/validator/matching_engine.py:92-100 | Over any run buyers and sellers trade equal quantities: submitted less resting less cancelled agrees on the two sides. |
| `Conservation.FillsRespectLimits` | services/validator/matching_engine.py:79-97 | Every fill of a call, on any book at all, is with an order of that book, at its price, within the incoming order's limit and within the resting quantity. |
| `Conservation.FillsNameLiveOrders` | services/validator/matching_engine.py:85-97 | No fill names an id that was not live when the call began. |
| `Conservation.DeadIdStaysDead` | services/validator/matching_engine.py:62-68 | A request that does not add an id brings no fill of that id while it is dead and does not revive it. |
| `Conservation.CancelledOrdersDoNotTrade` | services/validator/matching_engine.py:62-68 | Once an id has left the index, no later fill of any run names it unless it is submitted again. |
| `Conservation.CounterCountsOrdersAndFills` | services/validator/matching_engine.py:41-46 | On every stream the shared counter is the number of orders added plus the number of fills, and fills carry strictly increasing numbers in the order they were made. |
| `Refinement.RequestMirrors` | services/validator/matching_engine.py:45-110 | From a valid state with heap-ordered lists, one request returns the same fills as the naive engine that scans arrival-ordered books, and leaves the same orders resting in the same order of arrival. |
| `Refinement.ReplayMirrors` | services/validator/matching_engine.py:45-110 | The heap engine refines the naive one over every run whose cancels happen to leave heap-ordered lists. |
| `Refinement.CancelFreeRefinesNaive` | services/validator/matching_engine.py:45-110 | Refinement for every cancel-free stream with ids fresh while live: same fills in the same order, same resting orders; sequence numbers only count in their order. |
| `Refinement.ReheapedRefinesNaive` | services/validator/matching_engine.py:62-68 | Refinement for every stream with ids fresh while live, cancels included, when a cancel restores heap order. |
| `Arrival.OrderOfArrivalIsUnique` | services/validator/matching_engine.py:41-53 | Sequence numbers, gaps and all, fix one order of arrival: the renumbering used to compare engines is unique. |
| `Arrival.RootIsBestQuote` | services/validator/matching_engine.py:70-80 | The first order of a heap is the one a scan of all orders finds best-priced and oldest. |
| `Priority.NoTradeThrough` | services/validator/matching_engine.py:79-97 | On a valid heap-ordered match the k-th fill of a call is with the order that ranks before every other opposite order live at that instant, for the smaller of the two quantities then left, which is positive. |
| `Priority.PricesDoNotImprove` | services/validator/matching_engine.py:79-97 | Fill prices within one call do not fall for a buy and do not rise for a sell. |
| `Priority.RunsServeInOrder` | services/validator/matching_engine.py:75-110 | Both of the above for every order of every run whose cancels keep heap order. |
| `Priority.PartialFillKeepsHead` | services/validator/matching_engine.py:101-102 | A partially filled order is at the head of its queue again after going back. |
| `Priority.ReplayKeepsUncrossed` | services/validator/matching_engine.py:75-109 | In every state of such runs no resting buy reaches a resting sell. |
| `Priority.MarketRemainderFacesEmptyBook` | services/validator/matching_engine.py:58-60 | In runs whose cancels keep heap order, with non-negative prices: while the remainder of a market order rests the opposite book is empty. |
| `MarketOrders.MatchTakesAlike` | services/validator/matching_engine.py:75-110 | What a match takes off the incoming order it takes out of the opposite book. |
| `MarketOrders.MarketLeavesRemainderIff` | services/validator/matching_engine.py:58-60 | From any valid state, at prices a market order may trade at: something is left of it if and only if it asks for more than the opposite book offers in all. |
| `MarketOrders.MarketOrderRestsIff` | services/validator/matching_engine.py:58-60 | In every reachable state with ids fresh while live, cancels as written included: a market order is in the index after its call, its remainder resting, exactly under that condition; the design document has it cancelled. |
| `MarketOrders.MarketRemainderRests` | services/validator/matching_engine.py:58-60 | One sell of 1 and a market buy of 2: one is traded and a buy of 1 at plus infinity rests. |
| `FillTerms.PricesAreOrdered` | services/validator/matching_engine.py:79-80 | Prices compare as numbers between the two infinities, in a total order. |
| `FillTerms.CrossesIffAcceptable` | services/validator/matching_engine.py:58-60 | A limit buy may trade at no more than its limit and a limit sell at no less; a market buy at every price, and a market sell at exactly the prices that are not below 0. |
| `FillTerms.ReferenceFillsOnTerms` | services/validator/matching_engine.py:75-110 | In every valid state each fill a request returns is with an order that rests when it comes in: buyer and seller are named as such, the price is the resting order's and acceptable to the request, and a positive quantity trades that neither side lacks. |
| `FillTerms.TakenAtRestingPrice` | services/validator/matching_engine.py:89-100 | Whoever takes a resting order trades at its price. |
| `FillTerms.RemainderRestsAt` | services/validator/matching_engine.py:45-60 | In every valid state a request that is live after its call rests with what is left of it: a limit at its limit, a market sell at 0, a market buy at plus infinity. |
| `FillTerms.MarketRemainderIsTakenAt` | services/validator/matching_engine.py:58-60 | Whoever takes the remainder of a market sell pays 0, and of a market buy plus infinity. |
| `FillTerms.NextBuyTakesMarketSell` | services/validator/matching_engine.py:58-60 | Where no other sell rests, the next buy that accepts 0 takes the remainder of a market sell first, at 0, for the smaller quantity. |
| `CancelPriority.BestFirstIffHeaps` | services/validator/matching_engine.py:75-110 | In any valid state, crossed or not, every cancel-free continuation with ids fresh while live is served best-first if and only if both lists are heaps. |
| `CancelPriority.CancelKeepsPriorityIff` | services/validator/matching_engine.py:62-68 | In any valid state, crossed or not, a cancel as written keeps price-time priority over every cancel-free continuation if and only if both lists are heaps without the cancelled order. |
| `CancelPriority.CancelKeepsPriorityInRunsIff` | services/validator/matching_engine.py:62-68 | The same at any point of any run with ids fresh while live, whatever its earlier cancels did to the lists. |
| `CancelPriority.AlwaysBestFirstIffHeapKept` | services/validator/matching_engine.py:62-68 | Best-first service of every cancel-free continuation can be relied on at every point of such a run if and only if its cancels keep heap order. |
| `CancelPriority.DisorderShows` | services/validator/matching_engine.py:62-68 | From any valid state with a list that is no heap, whatever faces it, and for any price below which no buy rests, a cancel-free stream of fresh orders at that price and at plus infinity is constructed on which the fills are not best-first. |
| `CancelPriority.NonNegativeBestFirstIffHeaps` | services/validator/matching_engine.py:75-110 | The same equivalence with continuations at non-negative prices only, in any valid state with no resting buy below zero. |
| `CancelWitness.RankedWithout` | services/validator/matching_engine.py:66-67 | Cancelling from a fully ranked list keeps heap order. |
| `CancelWitness.LastSlotKeepsHeap` | services/validator/matching_engine.py:66-67 | Cancelling the order in the last slot keeps heap order. |
| `CancelWitness.CancelLosesPriority` | services/validator/matching_engine.py:62-68 | Sells at 1, 5, 2: cancelling the first leaves [5, 2], and a buy at 3 gets no fill although 2 crosses; the naive engine fills it. |
| `CancelWitness.CancelLeavesCrossed` | services/validator/matching_engine.py:75-110 | That buy at 3 then rests beside the sell at 2: as-written runs do reach crossed books. |
| `CancelWitness.WitnessIsReached` | services/validator/matching_engine.py:45-56 | Three limit sells do lead to that state. |
| `ContestantEngine.PlainList.SortBy` | examples/real_matching_engine/server.py:52-58 | The in-place sort leaves the whole list in ascending order of the incoming side's key, with the orders it had. |
| `ContestantEngine.PlainList.TakeFirst` | examples/real_matching_engine/server.py:74-79 | The head of a sorted book loses the traded quantity in place and leaves the book when nothing is left. |
| `ContestantEngine.PlainList.RemoveId` | examples/real_matching_engine/server.py:99-102 | Filtering a list removes exactly the orders of that id. |
| `ContestantEngine.ListMatchingEngine.constructor` | examples/real_matching_engine/server.py:38-42 | A new contestant engine is empty. |
| `ContestantEngine.ListMatchingEngine.PairPass` | examples/real_matching_engine/server.py:52-79 | One pass of the loop - sort, then leave or trade with the first - is one step of the value-level loop and makes its measure smaller. |
| `ContestantEngine.ListMatchingEngine.PairLoop` | examples/real_matching_engine/server.py:52-79 | The while loop ends on every book in the state the value-level loop ends in; a blocked book is left sorted. |
| `ContestantEngine.ListMatchingEngine.AddLimit` | examples/real_matching_engine/server.py:44-89 | Adding a limit order to the mutable engine gives the value-level successor state and exactly its fills. |
| `ContestantEngine.ListMatchingEngine.AddMarket` | examples/real_matching_engine/server.py:91-93 | A market order is a limit at plus infinity or zero. |
| `ContestantEngine.ListMatchingEngine.CancelById` | examples/real_matching_engine/server.py:95-103 | Cancel filters the one list of the side the index names and reports whether the id was indexed. |
| `FillTerms.ContestantFillsOnTerms` | examples/real_matching_engine/server.py:44-89 | Each fill of the example contestant is on the same terms: parties, resting price, limits, quantities. |
| `FillTerms.ContestantRemainderRestsAt` | examples/real_matching_engine/server.py:83-93 | What is left of a request rests there at the same price. |
| `FillTerms.ContestantRemainderIsTakenAt` | examples/real_matching_engine/server.py:91-93 | Whoever takes the remainder of a market sell pays 0, and of a market buy plus infinity. |
| `FillTerms.NextBuyTakesContestantSell` | examples/real_matching_engine/server.py:91-93 | Where no other sell rests, the next buy that accepts 0 takes the remainder of a market sell first, at 0. |
| `ContestantTerms.WorstIsServedFirst` | examples/real_matching_engine/server.py:52-79 | On every stream: the k-th fill of a call is with the worst-priced of the opposite orders then resting, the oldest of those, for the smaller of the two quantities. |
| `ContestantTerms.StopsAtWorst` | examples/real_matching_engine/server.py:52-64 | An order that is left with something has emptied the opposite list, or faces a worst-priced order it may not trade with, whatever better ones lie behind. |
| `ContestantTerms.ContestantConserves` | examples/real_matching_engine/server.py:44-103 | Over any run of the contestant with ids fresh to it, and for any choice of ids and sides: submitted quantity equals traded plus resting plus cancelled. |
| `ContestantServer.Serve` | examples/real_matching_engine/server.py:109-153 | All clients served by the one engine of the process, their messages handled in the order they come in: each client is sent the replies to its own messages, in order, each computed from the state that all earlier messages left. |
| `ContestantServer.EachClientIsAnswered` | examples/real_matching_engine/server.py:109-153 | Every client gets one reply for each of its messages, in order, each being what the one engine gives at that message's place among all. |
| `ContestantServer.OneClientAlone` | examples/real_matching_engine/server.py:109-153 | A client that is alone is sent all the replies. |
| `ContestantServer.Handle` | examples/real_matching_engine/server.py:110-153 | One message: an error reply for text that is no JSON, an empty acknowledgement for what cannot be routed, the engine's fills otherwise. |
| `ContestantServer.EachReplyIs` | examples/real_matching_engine/server.py:109-153 | A message is answered with an error if and only if it is no JSON, with no fills if it cannot be routed, and otherwise with the fills its request makes after all the requests before it. |
| `ContestantServer.FillsAreThoseOfRequests` | examples/real_matching_engine/server.py:109-153 | Messages that carry no request change neither the state nor the fills that are sent. |
| `ContestantServer.RepliesAreAcks` | examples/real_matching_engine/server.py:109-153 | A client whose every message is a request is sent, reply by reply, the engine's acknowledgements. |
| `TwoEngines.OrderAgreesIff` | examples/real_matching_engine/server.py:44-89 | One order gets the same fills from both engines if and only if it brings no quantity, can trade with nothing, or meets a book all at one price; and then both hold the same orders afterwards. |
| `TwoEngines.EnginesAgreeIff` | examples/real_matching_engine/server.py:44-103 | Over whole streams with ids fresh while live and whose cancels keep the reference lists in heap order: both engines acknowledge the same fills if and only if every request meets that condition on arrival. |
| `TwoEngines.AcksAgreeIff` | examples/real_matching_engine/server.py:44-103 | The same against best-price, oldest-first service, for every stream of ids not resting when they come in, cancels included: the contestant acknowledges what that service gives if and only if every request meets the condition. |
| `TwoEngines.CommonPriceServesOldest` | examples/real_matching_engine/server.py:44-103 | On every stream at one common price of ids that are not resting when they come in, cancels included and with no hypothesis on heap order, the contestant serves in order of arrival. |
| `TwoEngines.CommonPriceAgrees` | examples/real_matching_engine/server.py:44-89 | On every stream at one common price with ids fresh while live and whose cancels keep the reference lists in heap order, both engines acknowledge identical fills. |
| `TwoEngines.TwoLevelsPart` | examples/real_matching_engine/server.py:50-64 | Sells at 100 and 105 and a buy at 102: the engines differ, because the sort key follows the incoming side. |
| `RunWitnesses.EnginesPartAtOnePrice` | services/validator/matching_engine.py:62-68 | Without that hypothesis they do not agree: four sells, a buy, a cancel of the second sell and another buy, all at one price; the contestant fills the third sell and the reference engine the fourth. |
| `RunWitnesses.ReusedLiveIdVanishes` | services/validator/matching_engine.py:79-87 | Two sells under one id and two buys: after the first fill the id has left the index, so the second sell is dropped from the book unfilled when it comes up, and its quantity is gone. |
| `ContestantVerdict.TogetherOrParted` | examples/real_matching_engine/server.py:44-103 | On a stream that submits no id twice the contestant goes along with best-price, oldest-first service all the way, or lacks one of its trades at a position where it never gets it. |
| `ContestantVerdict.FillsStartAsWantedIff` | examples/real_matching_engine/server.py:44-103 | On every stream that submits no id twice, cancels included: the contestant's fills start with those of best-price, oldest-first service if and only if every request was agreeable on arrival. |
| `ListInvariants.SortedHead` | examples/real_matching_engine/server.py:55-60 | Sorting puts first an order that none ranks before under the incoming side's key: for that side the worst price of the book. |
| `ListInvariants.SortSorts` | examples/real_matching_engine/server.py:55-60 | The sort puts the whole list in order and loses no order. |
| `BotWorkload.BotIdsAreFresh` | bots/limit_order_bot.py:116-131 | Order ids that differ over the slots of the run make the bot's stream cancel-free with ids fresh while live. |
| `BotWorkload.NaiveOnBotStream` | bots/limit_order_bot.py:107-131 | Closed form of the naive engine after any number of slots: fills, waiting sell, leftover buys and sells. |
| `BotWorkload.ReferenceOnBotStream` | bots/limit_order_bot.py:107-131 | The same closed form for the reference engine, after any number of slots. |
| `BotWorkload.BotRounds` | bots/limit_order_bot.py:107-131 | After 10k slots the reference engine has made exactly 4k fills, at 101, 103, 105, 107 in turn, and rests exactly k buys at 100 and k sells at 109. |
| `BotContestant.ContestantOnBotStream` | examples/real_matching_engine/server.py:44-89 | On the same stream the example contestant makes four fills in the first ten slots and none ever after: its leftovers at 100 and 109 block it. |
| `FillDiff.DiffFills` | services/validator/replay.py:26-34 | The counting loop returns the number of matching positions over the number of reference fills (one if there are none). |
| `FillDiff.PerfectIffPrefix` | services/validator/replay.py:26-34 | The rate lies in [0, 1], and is 1 if and only if the reference is not empty and the contestant's list starts with it. |
| `FillDiff.AppendNeverLowers` | services/validator/replay.py:26-34 | Appending reported fills never lowers the rate. |
| `FillDiff.ReplayExtends` | services/validator/replay.py:10-23 | Replaying a longer stream extends the fill log of the shorter one, for every stream and both ways of cancelling. |
| `FillDiff.LogIsCollected` | services/validator/matching_engine.py:96-110 | The fill log is the concatenation of the fills the requests returned. |
| `FillDiff.MatchedGrowsWithTheRun` | services/validator/replay.py:10-34 | As the order stream and the reports both grow, the number of matched fills never falls. |
| `Validation.Submit` | services/validator/worker.py:30-38 | One order of the stream goes to the method of its type and does to the engine what the value-level request does. |
| `Validation.RunOrders` | services/validator/replay.py:10-22 | The loop that drives a new engine leaves it in the state the replayed stream leads to; with ids fresh while live its index then maps every resting order's id to that object. |
| `Validation.ReplayOrders` | services/validator/replay.py:10-23 | The loop that drives a new engine returns the fills of the replayed stream. |
| `Validation.ReadReports` | services/validator/worker.py:41-51 | The loop reads the reports into the list that the next row is about. |
| `Validation.ReportsAreRead` | services/validator/worker.py:41-51 | Every report whose numbers parse is read, once and in its place, and no other is: the fills read are those at the increasing positions of all readable reports. |
| `Validation.OneWayToRead` | services/validator/worker.py:41-51 | No other list of fills fits that description. |
| `Validation.Judge` | services/validator/worker.py:53-62 | The branches for no events, no reference fills and no reported fills give the judgement the next rows are about. |
| `Validation.ValidateSubmission` | services/validator/worker.py:18-79 | Without orders nothing is judged and the rate is 1; with orders it is 1 if and only if there were events and the readable reports start with the fills of the replayed stream; the stored rate, totals and mismatch count are those of the stream and the reports. |
| `Validation.ReportsScoreOneIff` | services/validator/worker.py:41-62 | From reports to rate: 1 if and only if there were events and the fills at the readable positions, with unreadable reports anywhere between, start with the reference fills. |
| `Validation.NoEventsNoRate` | services/validator/worker.py:54-55 | Without events the rate is 0, whatever is reported. |
| `Validation.JudgementCounts` | services/validator/worker.py:58-59 | With reports the rate times the number of reference fills is the number of matching positions. |
| `FillDiff.EachPositionCounts` | services/validator/replay.py:26-34 | Reporting another fill at a matched position loses exactly one match and one fill's share. |
| `Validation.JudgementIsPerfectIff` | services/validator/worker.py:53-62 | The rate lies in [0, 1], and is 1 if and only if there were events and the reported fills start with the reference fills. |
| `Validation.SilenceIsWorthHalf` | services/validator/worker.py:60-62 | Reporting nothing when there are reference fills is worth at most one half, and one half if and only if there were events, at least one per order. |
| `Validation.SilenceIs` | services/validator/worker.py:60-62 | Silence earns exactly half the share of orders that left an event, at most one half. |
| `Validation.MismatchedIsExact` | services/validator/worker.py:76 | With reported fills, the stored count is exactly the number of unmatched reference positions. |
| `Validation.MismatchedIsWhole` | services/validator/worker.py:76 | In general the stored count is the whole part of the share not given. |
| `Validation.SilentMismatchIs` | services/validator/worker.py:60-76 | When nothing was matched: without events every reference fill is stored as mismatched, but with nothing reported and an event for every order only half of them, rounded down. |
| `Validation.FaithfulContestantScoresOne` | services/validator/worker.py:53-62 | A contestant whose reports start with what the reference engine returns, order by order, is rated 1. |
| `Validation.AgreeableContestantScoresOne` | services/validator/worker.py:53-62 | On every stream with ids fresh while live, whose cancels keep heap order and whose requests are all agreeable on arrival, the example contestant is rated 1 if there were events. |
| `ContestantVerdict.ContestantScoresOneIff` | services/validator/worker.py:53-62 | On every stream that submits no id twice and whose cancels keep heap order, the example contestant is rated 1 if and only if there were events and every request was agreeable on arrival. |
| `RunWitnesses.ReusedIdHidesDisagreement` | services/validator/worker.py:53-62 | Ids fresh while live are not enough for that: on a run with one id submitted again after its cancel the two engines disagree and the contestant is rated 1 all the same. |
| `Submissions.UnrepeatedIsFresh` | services/validator/replay.py:10-23 | Ids submitted once are fresh while live. |
| `Submissions.UnrepeatedAcksAgreeIff` | examples/real_matching_engine/server.py:44-103 | On every stream that submits no id twice, cancels included: the contestant acknowledges, request by request, what best-price, oldest-first service gives if and only if every request is agreeable on arrival. |
| `Submissions.UnrepeatedAtOnePrice` | examples/real_matching_engine/server.py:44-103 | At one common price it does on every such stream. |
| `Validation.ContestantOnBotRounds` | services/validator/worker.py:53-62 | On 10k slots of the bot's own stream the example contestant is rated exactly 1/k. |
| `BotObject.LimitOrderBot.RecordResponse` | bots/limit_order_bot.py:49-103 | An answer leaves one event with its timestamps, those left out filled in, and posts its fills; a missing or unreadable one leaves an event without timestamps and one error. |
| `BotObject.LimitOrderBot.PostFills` | bots/limit_order_bot.py:61-76 | The loop posts every fill of an answer, in order. |
| `BotObject.LimitOrderBot.SendSlot` | bots/limit_order_bot.py:107-140 | A slot's message - its side, its price, its id, quantity 1 - joins the order stream in any case; if it goes out it joins the wire and the pending queue, and if the connection refuses it, the slot is recorded at once and two errors are counted. |
| `BotObject.LimitOrderBot.PostOrder` | bots/limit_order_bot.py:107-131 | The order of the next slot is made and added to the order stream, which holds the orders of all slots so far. |
| `BotObject.LimitOrderBot.Deliver` | bots/limit_order_bot.py:150-155 | The connection brings the server's next answer, to the oldest message not yet answered. |
| `BotObject.LimitOrderBot.TakePending` | bots/limit_order_bot.py:151-152 | The receiver takes the oldest pending message. |
| `BotObject.LimitOrderBot.AwaitAnswer` | bots/limit_order_bot.py:153-160 | The receiver records the oldest waiting answer, or the lack of one, for the message it took. |
| `BotProtocol.SlotsAreAccounted` | bots/limit_order_bot.py:105-160 | Under every interleaving each slot has left exactly one event, or is pending, or is in flight, and the count is the number of events. |
| `BotProtocol.AllSentInOrder` | bots/limit_order_bot.py:107-136 | When as many messages went out as there were slots, they are those of all slots in order. |
| `BotProtocol.EachSlotLeavesOneEvent` | bots/limit_order_bot.py:142-148 | Once the queue is joined every slot has left exactly one event and the returned count is the number of slots. |
| `BotProtocol.RepliesArePaired` | bots/limit_order_bot.py:150-160 | Messages are handled in the order sent and answers read in the order given, late ones included. |
| `BotProtocol.AnswersAreAsGiven` | bots/limit_order_bot.py:150-160 | Each answer reaches the bot as the server gave it, timestamps and fills, for the oldest message not yet answered. |
| `BotProtocol.PairingIsOffByTimeOuts` | bots/limit_order_bot.py:150-160 | A message gets the answer to the message as many places before it as there were time-outs before; its own if and only if there were none. |
| `BotProtocol.EventsCarryShiftedAnswers` | bots/limit_order_bot.py:49-103 | So the event of a message carries the timestamps of the answer as many places earlier as there were time-outs before, with the clock at the move that read it for an acknowledgement time left out and the acknowledgement time for a receipt time left out; and none after its own time-out. |
| `BotProtocol.ErrorsAreCounted` | bots/limit_order_bot.py:78-84 | The error count is the events without timestamps plus the failed sends, which so count twice. |
| `BotProtocol.ReportsAreTheAnswersRead` | bots/limit_order_bot.py:61-76 | The reported fills are those of the answers read so far, in order. |
| `BotProtocol.TimeOutsLoseTheLastAnswers` | bots/limit_order_bot.py:142-160 | Once joined, as many answers at the end have gone unread as there were time-outs. |
| `BotProtocol.IntendedCoversActual` | bots/limit_order_bot.py:109-112 | A sender that waits for its slot records an intended latency that is the actual one plus its own delay. |
| `BotProtocol.DueTimesAreSpaced` | bots/limit_order_bot.py:40-41 | Slot 0 is the start, and due times are the interval apart whatever became of earlier slots. |
| `EndToEnd.FaithfulServerUnderTimeOuts` | services/validator/worker.py:53-62 | A full run of the bot in which every message went out, against a server that matches as the reference does: with t time-outs in n slots the reports are the fills of the first n - t slots; the rate is their number over the number in n slots, one half if some were due and none was heard, and 1 if none was due. |
| `EndToEnd.FaithfulServerReports` | bots/limit_order_bot.py:105-160 | With messages refused as well, by any interleaving: the reports are the reference's fills on the messages that went out, but for as many at the end as there were time-outs. |
| `EndToEnd.RefusedMessageCosts` | services/validator/worker.py:53-62 | One refused message costs even a server that matches as the reference does: two slots, the first refused, no time-out, and the rate is one half, since the order stream holds an order the server never got. |
| `EndToEnd.RateOfPrefix` | services/validator/worker.py:53-62 | Reports that break off after some of the reference fills are rated by the share of fills reported; none of some is one half, and none due is 1. |
| `EndToEnd.HandlerAcknowledges` | examples/real_matching_engine/server.py:109-153 | The contestant's replies to the bot's messages carry, reply by reply, what its engine acknowledges on the bot's stream. |
| `EndToEnd.ExampleContestantRun` | services/validator/worker.py:53-62 | A run of the bot over any number of slots and under any time-outs, every message sent, against the example contestant's own handler: the reports are its first fills, four at most, and the rate is their number over that of the reference's fills (one half if none was heard of some, 1 if none was due). |
| `EndToEnd.ExampleContestantRounds` | services/validator/worker.py:53-62 | So 10k slots are rated exactly 1/k whenever the answers of the first eight slots are heard. |
| `EndToEnd.RoundsCostPoints` | shared/scoring.py:39-53 | Such a run scores 25(1 - 1/k) points less than one measured alike with all fills matched, under the default weights of 35, 25, 25 and 15 percent. |
| `IngesterObject.LatencyTracker.Record` | services/ingester/histogram.py:35-36 | Recording counts the event. |
| `IngesterObject.LatencyTracker.ResetWindow` | services/ingester/histogram.py:61-62 | Resetting starts the count over. |
| `IngesterObject.Ingester.TrackerFor` | services/ingester/main.py:45-48 | The tracker of a submission, made on first use and never shared. |
| `IngesterObject.Ingester.RecordIn` | services/ingester/main.py:63 | An event counts for its own submission's tracker and for no other. |
| `IngesterObject.Ingester.ProcessEvent` | services/ingester/main.py:58-64 | Consuming an event is one turn of the run: it counts under the submission it names and, without acknowledgement, as an error under its stream. |
| `IngesterObject.Ingester.TakeSnapshot` | services/ingester/main.py:108-111 | One turn: the flush takes a submission's count, and passes over an empty window. |
| `IngesterObject.Ingester.ReadErrorCount` | services/ingester/main.py:113-116 | One turn: after its first await the flush reads the error count. |
| `IngesterObject.Ingester.PublishRow` | services/ingester/main.py:148-162 | One turn: after its last await the flush queues the row and resets count and errors. |
| `IngesterObject.Ingester.PutRow` | services/ingester/main.py:149-159 | The oldest row is dropped from a full queue under the default policy; a row refused by a full queue is counted as dropped. |
| `IngesterObject.Ingester.AwaitRow` | services/ingester/main.py:168-177 | One turn: the writer appends a row it gets to its batch, or gives up waiting, and decides whether the batch goes out. |
| `IngesterObject.Ingester.BatchStored` | services/ingester/main.py:177-230 | One turn: a stored batch is in the database and the next one starts empty. |
| `Windows.EventsAreAccounted` | services/ingester/main.py:58-162 | Under every interleaving: events processed equal events published, plus those that fell between a snapshot and the reset of its window, plus those still owed. |
| `Windows.EventIsLost` | services/ingester/main.py:108-162 | A run of two events, the second between the snapshot and the reset of its window: the published row counts one, the other is in no row and no longer counted. |
| `Windows.FailuresAreAccounted` | services/ingester/main.py:58-162 | The same balance for events without acknowledgement, lost between the reading of the errors and their reset. |
| `Windows.ErrorsStayWithin` | services/ingester/main.py:58-162 | When events name the submission of their stream, live errors never exceed the live count, and published errors exceed the published count by no more than the events between the two readings. |
| `Windows.RatesAreShares` | services/ingester/main.py:114-116 | Every published error rate of every run lies in [0, 1), and is at most 1/2 if and only if the row has no more errors than events; when events name the submission of their stream, that holds for every row with no event between its two readings. |
| `Windows.PublishedRateIs` | services/ingester/main.py:114-116 | Every published rate times the row's events and errors together is its errors. |
| `Windows.RateMoves` | services/ingester/main.py:114-116 | It rises with the errors of a row, and falls with its events when there are errors. |
| `Windows.RateIsDocumentedIff` | services/ingester/main.py:114-116 | The published rate is the documented share of attempts (docs/MEASUREMENT.md:81) if and only if there were no errors, and falls short of it otherwise. |
| `Windows.TotalFailureIsHalved` | services/ingester/main.py:58-162 | A run of one event, unacknowledged: its row has one event and one error, and the published rate is one half where every attempt failed. |
| `RowPipeline.OldestAreDropped` | services/ingester/main.py:148-230 | Under every interleaving of producer and writer: database, batch and queue are produced rows in order, none twice; every other row was dropped by a put that found the queue full with that row as its oldest; the newest rows are never dropped; the full-queue exception never fires. |
| `RowPipeline.QueueIsNewest` | services/ingester/main.py:149-156 | The queue is the newest produced rows, at most as many as its bound. |
| `RowPipeline.RefusedAreCounted` | services/ingester/main.py:149-159 | Under the other policy every produced row is kept or counted as dropped. |
| `RowPipeline.NewestAreRefused` | services/ingester/main.py:149-159 | Under the other policy database, batch and queue are the produced rows in order, none twice, but for those put while the queue was full, and these are the rows counted. |
| `RowPipeline.BatchesAreBounded` | services/ingester/main.py:164-177 | A batch never outgrows the batch size and is short of it unless it is being written. |
| `RowPipeline.GetSendsOffIff` | services/ingester/main.py:167-177 | A wait that brings a row adds it to the batch; the batch goes to the database if and only if it is then full or its interval is over, and all of it does. |
| `RowPipeline.OnlyFullBatches` | services/ingester/main.py:164-177 | Over any run in which no wait finds its interval over, the database holds whole batches only. |
| `RowPipeline.NothingStaysBehind` | services/ingester/main.py:164-230 | With no new rows and its interval over at every wait, the writer brings every row that was kept to the database, in order, and empties queue and batch. |
| `IngesterRun.RunsAreJoined` | services/ingester/main.py:58-230 | Whole runs of consumer, flush task and writer taking turns: the counters and the pipeline each go their own way, joined by the published rows, and those and no others are put into the queue, in that order. |
| `IngesterRun.EventsReachDatabase` | services/ingester/main.py:58-230 | Under every interleaving and either policy, the events processed are those counted in rows in the database, the batch, the queue and lost rows, plus those between a snapshot and its reset, plus those still owed. |
| `IngesterRun.FailuresReachDatabase` | services/ingester/main.py:58-230 | The same balance for events without acknowledgement and the errors of rows. |
| `Scoring.SpeedIs` | shared/scoring.py:9-13 | The speed score is 100 up to 25000 us and 2500000/p99 beyond, across both boundaries at 0 and 1. |
| `Scoring.SpeedFallsWithLatency` | shared/scoring.py:9-13 | The speed score is antitone in p99 everywhere. |
| `Scoring.ThroughputIs` | shared/scoring.py:16-17 | A point for every ten requests a second, from 0 up to 100 at 1000. |
| `Scoring.CorrectnessIs` | shared/scoring.py:20-21 | The correctness score is the match rate in percent if and only if the rate lies in [0, 1]. |
| `Scoring.MatchRateIsWorth` | shared/scoring.py:6-53 | Under the default weights a match rate in [0, 1] costs 25 points times its distance from 1, whatever else is measured. |
| `Scoring.BreakdownIs` | shared/scoring.py:39-53 | Each field of a breakdown in closed form, for all measures: speed by p99, throughput by rate, correctness by match rate, stability by the two capped penalties; and the composite weighs each field with its own weight. |
| `Scoring.PublishedBreakdownIs` | services/ingester/main.py:114-135 | The fields published for every row of every run, from its counts and the latencies and rates read for it: one error for every nine events costs all of stability. |
| `Scoring.SubScoresAreInRange` | shared/scoring.py:9-27 | Each field of a breakdown lies in [0, 100] for error rates and spreads that are not negative. |
| `Scoring.StabilityIsInRangeIff` | shared/scoring.py:24-27 | The stability score leaves that range exactly when the two capped penalties add up to less than zero. |
| `Scoring.CompositeIsInRange` | shared/scoring.py:39-53 | Non-negative weights that add up to one keep the composite in [0, 100]. |
| `Scoring.CompositeFollows` | shared/scoring.py:39-53 | A submission no worse in any measure never gets a lower composite. |
| `Scoring.StabilityIsDocumentedIff` | shared/scoring.py:24-27 | The documented formula (docs/SCORING.md:46) has no caps: it agrees with the code if and only if the spread is at most 50 ms or the error rate at least 5 %; elsewhere the code is milder, by a known amount. |
| `Scoring.PublishedScoresAreInRange` | services/ingester/main.py:114-126 | Every row that any run of the ingester publishes gets a composite in [0, 100]. |
| `EventCodec.ParsePrintedInt` | shared/events.py:31-45 | Every integer prints to a non-empty numeral that reads back as itself. |
| `EventCodec.PrintParsedNat` | shared/events.py:43-45 | A run of digits is what printing its value gives if and only if it has no padding zero. |
| `EventCodec.SignsAreRead` | shared/events.py:43-45 | Digits read alike with a plus sign and without, and negated with a minus sign. |
| `EventCodec.ReadsIffNumeral` | shared/events.py:43-45 | A text reads as an integer if and only if it is a non-empty run of digits after at most one sign. |
| `EventCodec.PaddingReadsAlike` | shared/events.py:43-45 | Padding a run of digits with zeros changes no value. |
| `EventCodec.DecodeEncoded` | shared/events.py:31-55 | Every event decodes, to itself if and only if its bot id is not empty; an empty one becomes "default". |
| `EventCodec.DecodesIff` | shared/events.py:35-55 | Any entry decodes if and only if its four timestamps are each left out or a numeral; each field is read from its own key, sending times left out are zero, the others none, and an empty bot id is "default". |
| `EventCodec.EncodingIsInjective` | shared/events.py:31-33 | No two events have the same fields. |
| `EventCodec.LatenciesSurvive` | shared/events.py:19-29 | Decoding keeps both latencies and whether the event was acknowledged. |
| `EventCodec.LatencyIsElapsed` | shared/events.py:19-29 | Each latency is the time from sending, or from the intended sending, to the acknowledgement, in microseconds; there is none without acknowledgement. |

## Left out

- Rounding of floats, NaN prices and the text form of floats: prices, rates and scores are exact reals, prices with both infinities.
- Redis, asyncpg, WebSocket, HTTP, Docker and Locust plumbing: streams and channels are sequences, clocks and timeouts are inputs of a step. Stream trimming, the 10,000-entry read caps and the order in which concurrently created additions to a stream land are not modelled.
- heapq, list.sort and json are the language's own libraries; heapq is modelled by its published algorithm, the stable sort by insertion.
- HdrHistogram and percentiles: only the window counters of a tracker are kept, so nothing is said about which latencies the p99 of a row is taken over (services/ingester/main.py:121).
- An id submitted again while it is still live: the mutable engine and the value-level functions cover it, but index agreement, conservation, refinement and priority are stated for ids fresh while live, without which they fail (`RunWitnesses.ReusedLiveIdVanishes`), and the bot's eight-character random ids are taken as distinct over the slots of a run.
- Price-time priority after a cancel that breaks heap order: it is lost, and the exact condition is proved instead.
- Orders whose side, price or quantity does not parse: they raise in the source, requests here are typed. Numbers with surrounding blanks, underscores or non-ASCII digits, which the language's integer parser also takes, read as no numeral in `EventCodec`.
- Answers whose JSON has an unexpected shape and kills the bot's receiver, failed database writes, and exceptions out of Redis calls.
- The order in which a flush round visits submissions, and that it visits each once: `Windows` allows any submission with a tracker next.
- The validator's polling loop, which only decides when to validate again; the leaderboard entries and the frontend.
- The time a bot's send loop runs: any number of slots is covered.
- Agreement of the two engines after a cancel that leaves a reference list out of heap order: stated against best-price, oldest-first service instead (`TwoEngines.AcksAgreeIff`), with a run on which the reference engine itself departs from it.
- EndToEnd.FaithfulServerUnderTimeOuts: the closed form is for runs in which every message went out; with refused messages `EndToEnd.FaithfulServerReports` gives the reports, and `EndToEnd.RefusedMessageCosts` shows what one can cost.
- EndToEnd.ExampleContestantRun: every message went out and the bot is the contestant's only client.
