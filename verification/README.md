# Cesta: verified models of the journey router and of the service protocols

This project models, in Dafny, the parts of the Cesta journey planner whose correctness is hardest to see from the
code, and proves what they are for.

**Routing** (`routing/`, after `crates/routing-core/src/lib.rs`)

- The timetable: trips are grouped by line, mode and stops, split into chains of trips that never overtake, sorted and
  indexed (`Grouping`, `Partition`, `RouteBuilding`, `TimetableBuilder`, data in `Network`). What the result says of its
  input, by the names of stops and the times of trips alone, is in `PartitionLaws` and `TimetableLaws`.
- The realtime overlay: delays from an update stream, bounds of delays per route, and the indexed search for the first
  trip that can be caught, which agrees with a plain minimum over all trips (`Realtime`).
- The RAPTOR search: `RaptorSearch.Search` is the search with its arrays, work list and parent pointers. Its invariants
  are in `RaptorInvariant`, `RaptorWalking`, `RaptorScanning` and `RaptorHistory`; what follows from them about labels
  in `RaptorTheorems`, about parent pointers in `RaptorTrace`, about the returned journeys in `RaptorJourneys`. The
  reference is the plain notion of an itinerary in `Itineraries`, which knows nothing of rounds or labels.
  `RaptorExactness` says on which networks nothing at all is missed, `Requests` translates named stops to indices and
  back, `Alignment` moves a leading walk.
- What a journey promises a traveller, leg by leg and in numbers: `LegLaws` says which legs can be travelled, without
  the router's own notions, and `LegExactness` proves that these are exactly the legs of feasible itineraries.
- Direct services: pair by pair with bounded memory, against one selection from everything (`Selection`, `Truncation`,
  `DirectJourneys`); `SelectionLaws` says what the selection picks, by the times, lines and trips on offer.
- The departure profile (`DepartureProfile`) and the connection scan: what can be travelled (`ScanItineraries`), the
  labels as a function of the network (`ScanLabels`), the legs of its journeys (`ScanLaws`), and the loops that compute
  them (`ConnectionScan`).

**Service** (`service/`, after `services/api/src`)

- Ticket orders (`Orders`) and idempotent requests (`Idempotency`): handlers that run between await points, requests
  abandoned at any await point, restarts, memory and database. The steps of the handlers are methods of a class; each is
  proved to be the matching action of a transition function, and the theorems are about all runs of such actions.
  `OrderHistory` and `IdempotencyLaws` tie what is on record and what is answered to the steps of the run alone.
- Telemetry from `record` to the table, in the same way (`Telemetry`, with `TelemetryLedger`, `LatencyStats` and
  `TelemetryFlow`).
- The two rate limiters over whole runs (`AdmissionControl`, `TicketingLimit`, with `Clock`).

`Machine` has the saturating 32-bit operations and `Sorting` a stable sort with the laws the rest needs.

Four findings are stated as exact conditions rather than as unconditional guarantees:

- An order is sold at most once as long as a row update whose request was abandoned takes effect before the order's lock
  is given up, or never (`Orders.SellAtMostOnce`). If the database may execute such an update later, a sale is final
  exactly if the row is past the payment and no abandoned update from before the payment is under way
  (`Orders.NeverAgainExactly`). The failing run exists for every created order (`Orders.SoldTwice`): the request for the
  checkout is dropped during its row update, the order is paid and completed from memory, the process restarts, the old
  update takes effect, and the order is completed again.
- An order recorded as issued stays issued over restarts exactly if the row has it as issued
  (`OrderHistory.IssuedForGoodExactly`); until then a restart brings back the paid order, which can be reconciled
  (`OrderHistory.PaidCanBeIssued`).
- After a successful reply the body never runs again in the process (`Idempotency.NeverRunsAgain`), and every answer
  repeats the reply (`Idempotency.SuccessIsFinal`). Over restarts, and when abandoned statements take effect late, the
  body never runs again exactly if the row holds a reply, and every answer repeats this one exactly if the row holds it
  and no late update can replace it (`Idempotency.FinalOverRestartsExactly`). Runs in which each half fails exist
  (`Idempotency.RunsTwice`, `Idempotency.ReplyReplaced`).
- The connection scan finds the earliest arrivals exactly if no improving move from a final label exceeds the transfer
  limit (`ScanLabels.OptimalExactly`); it can miss an itinerary within the limit (`ConnectionScan.LimitHides`).

## Model

| member | source | states |
|---|---|---|
| `Partition.PartitionNonOvertakingTrips` | crates/routing-core/src/lib.rs:994-1037 | The loop with its fast path computes the greedy chains of the sorted trips |
| `Partition.ChainsCorrect` | crates/routing-core/src/lib.rs:994-1037 | The chains are non-empty, together a permutation of the trips, and any two trips of a chain, not only neighbours, are ordered at every stop |
| `Partition.PrecedesTransitive` | crates/routing-core/src/lib.rs:1039-1046 | Not overtaking is transitive between trips of equal length |
| `Partition.FastPathAgrees` | crates/routing-core/src/lib.rs:1005-1010 | The all-in-one shortcut returns what the greedy loop would return |
| `Partition.ChainsIgnoreOrder` | crates/routing-core/src/lib.rs:994-1037 | With unique trip identifiers the chains do not depend on the order of the input |
| `PartitionLaws.BestChainLeavesLatest` | crates/routing-core/src/lib.rs:1013-1028 | The chosen chain leaves latest among those the trip may follow, the last of equals; none is chosen only when it may follow none |
| `PartitionLaws.ChainsWellChosen` | crates/routing-core/src/lib.rs:1011-1036 | Told by the finished chains: wherever a trip could have followed the last trip of another chain, it follows one that leaves no earlier; it opens a chain only when it could follow none |
| `RouteBuilding.ChainSorted` | crates/routing-core/src/lib.rs:132-137 | Sorting a chain again by first departure changes nothing |
| `RouteBuilding.ChainRoute` | crates/routing-core/src/lib.rs:132-156 | The route of a chain: its departure index is the identity order at every position, the verified index its filter, and both are sorted lists of exactly the right trips |
| `Grouping.GroupByPattern` | crates/routing-core/src/lib.rs:116-127 | Every trip lands in the group of its line, mode and stop sequence, in input order, and nowhere else |
| `Grouping.IndexStops` | crates/routing-core/src/lib.rs:97-114 | Stops are numbered by first mention, one number per stop |
| `TimetableBuilder.BuildRoutes` | crates/routing-core/src/lib.rs:128-157 | Whatever order the hash map yields the groups in, the routes hold exactly the given trips and are well formed |
| `TimetableBuilder.ListVisits` | crates/routing-core/src/lib.rs:177-182 | The pair of route and position is listed under a stop exactly when the route visits the stop there |
| `TimetableBuilder.MapTrips` | crates/routing-core/src/lib.rs:165-175 | Every trip identifier is mapped to the route that holds the trip |
| `TimetableBuilder.IndexTransfers` | crates/routing-core/src/lib.rs:183-206 | Links between known stops in order, same-stop records as the least change time, unknown stops skipped |
| `TimetableBuilder.NewTimetable` | crates/routing-core/src/lib.rs:97-216 | The built timetable conserves the trips and every index of it is exact |
| `TimetableBuilder.BuiltIsValid` | crates/routing-core/src/lib.rs:97-216 | A built timetable meets everything the searches rely on |
| `TimetableBuilder.RoutesDetermined` | crates/routing-core/src/lib.rs:128-163 | Two builds from the same input have the same routes, whatever order the hash map yields |
| `TimetableBuilder.ConservedAreDistinct` | crates/routing-core/src/lib.rs:116-157 | Unique trip identifiers in the input are unique across all routes |
| `TimetableLaws.BuiltStopsKept` | crates/routing-core/src/lib.rs:97-114 | The stops are exactly those a stop time or either end of a transfer names, each once, those of earlier trips first |
| `TimetableLaws.BuiltTransfersKept` | crates/routing-core/src/lib.rs:183-206 | By names: every transfer between different stops is a link and every link such a transfer; the change time of a stop is the least of its same-stop records, and missing exactly when there is none |
| `TimetableLaws.BuiltRoutesKept` | crates/routing-core/src/lib.rs:116-163 | By stop times: the routes hold exactly the given trips, none overtakes on a route, a trip shares the route of the latest trip of its service it may follow and begins one only when it may follow none, and routes come by line and first trip |
| `TimetableLaws.BuiltAsGiven` | crates/routing-core/src/lib.rs:97-216 | All of this for every built timetable |
| `Realtime.FromUpdates` | crates/routing-core/src/lib.rs:357-391 | The looked-up delay of a trip at a stop is the clamped delay announced for it by the update stream; told by the place of the deciding update |
| `Realtime.AnnouncedByFirst` | crates/routing-core/src/lib.rs:357-408 | The delay is that of the first update about the trip at that stop, else of the first about the trip, held within six hours either way, else none |
| `Realtime.RecordsConsistent` | crates/routing-core/src/lib.rs:357-408 | After any update stream every looked-up delay lies within the recorded bounds of its trip and of all trips |
| `Realtime.DelayBoundsByRoute` | crates/routing-core/src/lib.rs:414-439 | The bounds of a route are the widest over its trips that have delays |
| `Realtime.RouteBoundsHold` | crates/routing-core/src/lib.rs:401-439 | Every looked-up delay of a trip lies within the bounds of its route |
| `Realtime.EarliestBoardableIsFirstMinimum` | crates/routing-core/src/lib.rs:1069-1117 | The reference: the least effective departure no earlier than `ready` among trips that pick up, the first in the index on ties, none exactly if no trip qualifies |
| `Realtime.EarliestCatchable` | crates/routing-core/src/lib.rs:1069-1117 | The binary search with its early stop finds what the reference finds, with and without delays, with saturation at both ends |
| `Realtime.FirstDepartureFrom` | crates/routing-core/src/lib.rs:1079-1081 | The partition point of a departure index |
| `RaptorInvariant.WriteKeepsRound` | crates/routing-core/src/lib.rs:844-872 | A label written below the known best, with a parent that explains it, keeps the invariant of the round |
| `RaptorWalking.FollowLink` | crates/routing-core/src/lib.rs:1134-1179 | Following one walking link keeps the state of the work list and lowers the sum of the best labels |
| `RaptorWalking.SettledMeansTight` | crates/routing-core/src/lib.rs:1134-1179 | When the work list is empty every walk parent satisfies label(to) = label(from) + seconds, although labels were overwritten on the way |
| `RaptorScanning.EarliestBoardableCatches` | crates/routing-core/src/lib.rs:909-916 | The trip that is caught can be boarded, and no trip that can be boarded leaves earlier |
| `RaptorScanning.BoardStep` | crates/routing-core/src/lib.rs:876-929 | Keeping the current trip unless a strictly earlier one can be caught keeps the rider ahead of every trip that could be boarded since the start |
| `RaptorScanning.AlightStep` | crates/routing-core/src/lib.rs:835-874 | Alighting at one more position leaves every ride to that position accounted for |
| `RaptorScanning.RideIsSound` | crates/routing-core/src/lib.rs:844-872 | The label and parent written on alighting describe a ride that can be made |
| `RaptorScanning.QueueServesAll` | crates/routing-core/src/lib.rs:795-810 | Scanning each queued route once from its earliest marked position accounts for every ride from any marked stop |
| `RaptorSearch.Search.MarkStop` | crates/routing-core/src/lib.rs:1127-1132 | A stop is marked once and its flag set |
| `RaptorSearch.Search.RelaxTransfers` | crates/routing-core/src/lib.rs:1134-1179 | Terminates on any non-negative links, zero-second cycles included; at exit no link from a stop labelled in the round can improve a best label below the bound; labels only fall; other rounds are untouched |
| `RaptorSearch.Search.RelaxFrom` | crates/routing-core/src/lib.rs:1150-1177 | One stop of the work list: either the sum of the best labels falls or the list gets shorter |
| `RaptorSearch.Search.Alight` | crates/routing-core/src/lib.rs:835-874 | Exactly when the arrival beats the best target and the best label, the arrival and a parent that records the ride are written; otherwise nothing is |
| `RaptorSearch.Search.Board` | crates/routing-core/src/lib.rs:876-929 | The boarding step of the scan, with the margin for how the stop was reached |
| `RaptorSearch.Search.ScanRoute` | crates/routing-core/src/lib.rs:817-931 | Scanning a route accounts for every ride from a label of the previous round |
| `RaptorSearch.Search.CollectRoutes` | crates/routing-core/src/lib.rs:791-810 | Every visit of a marked stop is queued no later than its position; positions are cleared afterwards |
| `RaptorSearch.Search.RunRound` | crates/routing-core/src/lib.rs:785-949 | A round extends the history of the search by one complete round |
| `RaptorSearch.Search.Seed` | crates/routing-core/src/lib.rs:768-772 | The origins are labelled with the departure time and marked |
| `RaptorSearch.Search.Run` | crates/routing-core/src/lib.rs:758-949 | The search ends with a complete history: all rounds run, or nothing left to improve |
| `RaptorTheorems.EveryItineraryMatched` | crates/routing-core/src/lib.rs:758-949 | Every itinerary on orderly routes within the transfer limit is matched in the round of its rides by a label no later, or a target was reached no later |
| `RaptorTheorems.LabelsOptimal` | crates/routing-core/src/lib.rs:758-949 | For every such itinerary to a target, some target is labelled no later in a round of at most as many rides |
| `RaptorTheorems.LaterRoundsBetter` | crates/routing-core/src/lib.rs:811-855 | A label of a later round beats every target label of an earlier round |
| `RaptorTheorems.BestFalls` | crates/routing-core/src/lib.rs:785-949 | Best labels and the best target never rise from round to round |
| `RaptorTrace.NoWalkCycle` | crates/routing-core/src/lib.rs:1134-1179 | In every state of a round no chain of walk parents returns to its stop |
| `RaptorTrace.WalkChainEnds` | crates/routing-core/src/lib.rs:1190-1254 | In every state of a round the walk parents from a labelled stop end at a ride, or in round 0 at an origin without a parent |
| `RaptorTrace.TraceBack` | crates/routing-core/src/lib.rs:1190-1254 | From every label of every round the parents lead back to an origin |
| `RaptorTrace.TraceIsFeasible` | crates/routing-core/src/lib.rs:1190-1254 | The itinerary read off the parents is feasible with the router's own margins, has as many rides as the round, and arrives when the label says |
| `RaptorTrace.LastLeg` | crates/routing-core/src/lib.rs:1198-1246 | The leg made from a parent is the last leg of that itinerary |
| `RaptorJourneys.Reconstruct` | crates/routing-core/src/lib.rs:1181-1254 | The loop over the parents terminates and returns the legs of the itinerary, and nothing only when there are none |
| `RaptorJourneys.FindTarget` | crates/routing-core/src/lib.rs:953-962 | The first of the targets with the least label of the round, none exactly if none is labelled |
| `RaptorJourneys.JourneyOfRound` | crates/routing-core/src/lib.rs:963-988 | A labelled target of a round from 1 on always gives a journey, which presents a feasible itinerary |
| `RaptorJourneys.CollectJourneys` | crates/routing-core/src/lib.rs:951-989 | One journey for each round that labels a target, each later one arriving strictly earlier |
| `LegExactness.TravelsExactly` | crates/routing-core/src/lib.rs:873-931 | Legs present a feasible itinerary exactly if each follows the one before in place and time: a walk is a link, a ride a trip of an allowed line and mode that really leaves no earlier than the traveller is ready, plus the stop's change time and the buffer after a ride, plus the buffer after a walk |
| `LegExactness.TravelsFeasible` | crates/routing-core/src/lib.rs:873-931 | Such legs give an itinerary; with change times kept after walks, too, and rides on orderly routes, a robust one |
| `LegExactness.AlignedShown` | crates/routing-core/src/lib.rs:1274-1309 | A journey shows walks with the traveller's own times, but those before the first vehicle end when it is scheduled to leave, exactly if they fit into the time before |
| `RaptorJourneys.JourneyKept` | crates/routing-core/src/lib.rs:951-989 | In numbers: the legs of a returned journey can be travelled from an origin to a target, with the journey's times, and one ride more than changes |
| `RaptorJourneys.Raptor` | crates/routing-core/src/lib.rs:684-992 | Sound: every journey presents a feasible itinerary to a target with one ride more than changes. Pareto: strictly later arrival for strictly fewer changes. Complete: every itinerary with cautious margins on orderly routes is answered by a journey with no more rides and no later arrival, or a target needs no ride. In numbers: the legs of every journey can be travelled, with the change times, buffers, lines and modes of the request, and all legs that can be travelled with change times kept throughout are answered. Delays included throughout |
| `RaptorExactness.ChainIsOrderly` | crates/routing-core/src/lib.rs:917-928 | Without delays, with distinct departures and equal drop-off flags, a chain is an orderly route |
| `RaptorExactness.FeasibleIsRobust` | crates/routing-core/src/lib.rs:880-907 | On a plain network the router's own margins are the cautious ones |
| `RaptorExactness.NothingMissed` | crates/routing-core/src/lib.rs:684-992 | On a plain network the search itself answers every feasible itinerary within the transfer limit by a journey with no more rides and no later arrival, or a target needs no ride; in numbers, all legs that can be travelled are answered |
| `RaptorExactness.BuiltRoutesGood` | crates/routing-core/src/lib.rs:97-216 | Built timetables are valid for queries and their routes are chains |
| `Requests.Resolver.Resolve` | crates/routing-core/src/lib.rs:694-709 | A stop name gets one index: that of the timetable, one given before, or the next free one |
| `Requests.Prepare` | crates/routing-core/src/lib.rs:690-757 | The query has the named origins in order, exactly the named targets, and exactly the extra transfers, on pairwise different stops |
| `Requests.LegsConnected` | crates/routing-core/src/lib.rs:1190-1254 | The legs of a feasible itinerary lead without a break from an origin to its end |
| `Requests.AlignedConnected` | crates/routing-core/src/lib.rs:1274-1309 | Alignment keeps the chain of legs connected |
| `Requests.JourneyLeads` | crates/routing-core/src/lib.rs:951-989 | A journey is a non-empty connected chain of legs from a stop the request starts at to one it ends at |
| `Requests.Search` | crates/routing-core/src/lib.rs:684-992 | The guarantees of the search for the request as it names its stops, those about legs included |
| `Alignment.AlignLeadingWalk` | crates/routing-core/src/lib.rs:1274-1309 | The reverse loop in place, with its checked sums, lays the leading walks end to end before the first vehicle, or changes nothing |
| `Alignment.LaidBeforeFits` | crates/routing-core/src/lib.rs:1303-1308 | Laid walks keep their stops and durations, have no gaps and fill exactly the time before the departure |
| `Alignment.ItineraryWalksFromStart` | crates/routing-core/src/lib.rs:773-783 | The leading walks of any feasible itinerary add up from the requested departure, and without delays the first vehicle does not leave before they are over |
| `Alignment.LeadingWalkFits` | crates/routing-core/src/lib.rs:968-975 | Without delays every journey that starts on foot is aligned: durations kept, no gaps up to the first departure, start no earlier than requested |
| `Selection.DroppingChangesNothing` | crates/routing-core/src/lib.rs:625-652 | Dropping candidates that are outnumbered by better ones of the same line changes nothing in the selection |
| `Selection.SelectDedup` | crates/routing-core/src/lib.rs:625-627 | Removing duplicates first does not change the selection |
| `Selection.PassIsChoice` | crates/routing-core/src/lib.rs:629-652 | Reserving one place per line and filling up by index picks what a single pass with counters picks |
| `Selection.SelectionCoversLines` | crates/routing-core/src/lib.rs:629-652 | As many candidates and as many lines as the limit allows, each covered line by its first candidate |
| `SelectionLaws.SelectPicksWell` | crates/routing-core/src/lib.rs:625-674 | Told by times, lines and trips: at most `k` services in order of real departure and arrival, no ride twice; each line led by its first service on offer; nothing left out unless the list is full, a line only if every place went to another line; what is left out is no earlier than any service that does not lead its line |
| `Truncation.TruncationHarmless` | crates/routing-core/src/lib.rs:617-625 | Cutting each endpoint pair to the limit leaves the selection from all of them unchanged, loop trips included |
| `DirectJourneys.EndpointPairs` | crates/routing-core/src/lib.rs:511-535 | All pairs of an origin and a later target position of a route, in order, each once |
| `DirectJourneys.CollectPair` | crates/routing-core/src/lib.rs:548-622 | The indexed loop with sort and cut after every push keeps the best candidates of all direct trips of the pair |
| `DirectJourneys.SelectCandidates` | crates/routing-core/src/lib.rs:625-652 | The set-based reserve and fill equals the selection |
| `DirectJourneys.DirectServices` | crates/routing-core/src/lib.rs:499-653 | Streaming with bounded memory returns what one selection from all direct services returns: told by numbers, a fair pick of the services on offer with each line led by its earliest |
| `DirectJourneys.AllDirectsExact` | crates/routing-core/src/lib.rs:538-624 | The candidates are exactly the direct trips between the endpoints in the window of effective departures |
| `DirectJourneys.AllDirectsOffered` | crates/routing-core/src/lib.rs:511-624 | They are exactly the services on offer, in numbers: trips between positions of an origin and a target, of an allowed mode, open to passengers, really leaving within the window and arriving no earlier |
| `DirectJourneys.DirectServicesCoverLines` | crates/routing-core/src/lib.rs:629-652 | The answer covers min(limit, lines) lines, each by the first of all its direct services |
| `DepartureProfile.AccessSeconds` | crates/routing-core/src/lib.rs:257-277 | For each reachable stop the least access time, zero for requested stops |
| `DepartureProfile.FromVisit` | crates/routing-core/src/lib.rs:282-311 | The partition point and the early stop find every eligible departure of a visit in the window and no other |
| `DepartureProfile.Collect` | crates/routing-core/src/lib.rs:250-312 | The collected set is the request time and every catchable departure shifted by its access time |
| `DepartureProfile.SampleIndices` | crates/routing-core/src/lib.rs:318-321 | The sample positions are in range, strictly increasing, and run from the first to the last |
| `DepartureProfile.SampleAsFarAlong` | crates/routing-core/src/lib.rs:318-321 | Each sample position is as far along all departures as the sample is along all samples, rounded down |
| `DepartureProfile.SpreadEvenly` | crates/routing-core/src/lib.rs:318-321 | The gaps between neighbouring samples differ by at most one position |
| `DepartureProfile.Thin` | crates/routing-core/src/lib.rs:314-322 | Thinning keeps order, first and last, yields min(limit, size) times, and takes each at the proportional position |
| `DepartureProfile.DepartureTimes` | crates/routing-core/src/lib.rs:239-323 | The whole function: only the request time without a window or with a limit of one, otherwise the thinned set in strictly increasing order, evenly spread |
| `DepartureProfile.WorthwhileIsWindow` | crates/routing-core/src/lib.rs:255-312 | Without saturation the set is the request time and every departure that, less the access time, falls into the window |
| `DepartureProfile.NeverEarlier` | crates/routing-core/src/lib.rs:279-307 | With saturation, a time before the request is returned exactly if a vehicle leaves at the last second of the clock from a stop that cannot be reached by then |
| `ConnectionScan.Scanner.Offer` | crates/routing-core/src/lib.rs:1379-1391 | A label is written exactly when the move is within the transfer limit and arrives earlier than known; a refused improvement is remembered, and nothing else is |
| `ConnectionScan.Scanner.RelaxWalking` | crates/routing-core/src/lib.rs:1422-1472 | The loop terminates on any transfers and yields the labels after passes until one changes nothing |
| `ConnectionScan.Scanner.ScanConnection` | crates/routing-core/src/lib.rs:1335-1394 | One connection of the loop is one step of the scan, walks included |
| `ScanLabels.PassSettles` | crates/routing-core/src/lib.rs:1427-1471 | A pass that changes no label leaves every walk either no improvement or refused by the limit |
| `ScanLabels.WalkedRelaxes` | crates/routing-core/src/lib.rs:1422-1472 | Walking keeps every label that of a feasible itinerary, only improves labels, changes none to before its first walk, and leaves every walk done |
| `ScanLabels.ConnectionKeepsBetween` | crates/routing-core/src/lib.rs:1335-1394 | A connection scanned in order of departure keeps all connections before it done and is done itself |
| `ScanLabels.ScannedClosed` | crates/routing-core/src/lib.rs:1318-1394 | After the scan every label stands for a feasible itinerary within the limit, and with strictly forward connections no move improves a label except one the limit refused |
| `ScanLabels.OptimalExactly` | crates/routing-core/src/lib.rs:1318-1420 | With strictly forward connections every label is the earliest arrival and unlabelled stops cannot be reached exactly if no improving move from a final label exceeds the transfer limit; a run in which the limit refused nothing is such a one |
| `ScanLabels.ClosedIsOptimal` | crates/routing-core/src/lib.rs:1318-1420 | Even when the limit refuses something, no label is later than an itinerary to its stop that it does not hinder |
| `ConnectionScan.EarliestArrivals` | crates/routing-core/src/lib.rs:1318-1420 | Returns exactly the answer of the scan's labels: at most one journey, of a feasible itinerary within the limit; with strictly forward connections the earliest of all, and none only if there is none, when the limit never refused an improvement; never later than an itinerary it does not hinder; told by connections and transfers |
| `ScanItineraries.ChangesBounded` | crates/routing-core/src/lib.rs:1348-1356 | An itinerary without a repeated stop changes fewer times than there are stops |
| `ScanItineraries.NothingTooLongUnhindered` | crates/routing-core/src/lib.rs:1434-1437 | If no itinerary without a repeated stop exceeds the limit, the limit hinders none |
| `ScanItineraries.FewStops` | crates/routing-core/src/lib.rs:1354-1356 | The limit hinders none when there are no more stops than rides allowed |
| `ConnectionScan.LimitHides` | crates/routing-core/src/lib.rs:1318-1420 | A network where the scan finds nothing although a feasible itinerary within the limit exists: the limit hinders it |
| `ScanLaws.TravelsExactly` | crates/routing-core/src/lib.rs:1335-1394 | Legs present a feasible itinerary exactly if each follows the one before: a transfer taken at once, or a connection of an allowed mode that has not left yet |
| `ScanLaws.JourneyKept` | crates/routing-core/src/lib.rs:1396-1420 | In terms of connections and transfers: the legs of the answer lead from the origin to the target within the limit, with the journey's times and changes |
| `Orders.OrderService.Read` | services/api/src/ticketing.rs:2084-2124 | The checks of every handler once the order is read, memory first |
| `Orders.OrderService.Quoted` | services/api/src/ticketing.rs:1754-1765 | What refreshing, selecting, cancelling and add-ons save after the railway answered |
| `Orders.OrderService.SessionCreated` | services/api/src/ticketing.rs:2042-2052 | Checkout stores the session, the customer and the pending status |
| `Orders.OrderService.Settled` | services/api/src/ticketing.rs:2125-2147 | Completion goes on only when the payment provider found the session settled |
| `Orders.OrderService.Fixed` | services/api/src/ticketing.rs:2161-2162 | The order is saved as paid before the sale |
| `Orders.OrderService.Written` | services/api/src/ticketing.rs:2162-2168 | The sale is called only after the paid order was saved |
| `Orders.OrderService.Sold` | services/api/src/ticketing.rs:2169-2195 | The order becomes issued or failed according to the sale |
| `Orders.OrderService.Found` | services/api/src/ticketing.rs:2089-2108 | Reconciling marks the order issued when tickets exist, without selling |
| `Orders.SoundStep` | services/api/src/ticketing.rs:1739-2200 | Every step of every handler, every abandoned request and every restart keeps memory, row, lock holder and sales consistent |
| `Orders.SellAtMostOnce` | services/api/src/ticketing.rs:2084-2195 | Over all interleavings, abandoned requests and restarts, at most one sale, on terms that were agreed at checkout and found settled |
| `Orders.CreatedCanBeSold` | services/api/src/ticketing.rs:1998-2200 | From every created order some run without late updates reaches a sale, so the guarantees are not empty |
| `Orders.SoldAsStored` | services/api/src/ticketing.rs:2161-2168 | At the sale the stored order is paid and carries the session and amount it is sold for |
| `Orders.EditsOnlyDrafts` | services/api/src/ticketing.rs:2684-2690 | The railway is asked to edit an order only while it is a draft |
| `Orders.TermsStand` | services/api/src/ticketing.rs:3082-3088 | Once stored past checkout, amount, session and customer never change and the status only advances |
| `Orders.SalesAreSettled` | services/api/src/ticketing.rs:2125-2168 | Every sale is on agreed and settled terms even if abandoned updates take effect late |
| `Orders.LooseSellsAgain` | services/api/src/ticketing.rs:3082-3088 | A record from before the payment that reaches the row late lets a restarted process sell again |
| `Orders.NeverAgainExactly` | services/api/src/ticketing.rs:3082-3088 | A sale is final, whatever happens later, exactly if no record from before the payment is in the row or on its way there |
| `Orders.SaleWithLateUpdate` | services/api/src/ticketing.rs:2048-2052 | From every created order in a database, a checkout abandoned during its row update and completed from memory is sold while that update is still under way |
| `Orders.SoldTwice` | services/api/src/ticketing.rs:3082-3088 | So some run sells such an order twice |
| `OrderHistory.RecordsEarned` | services/api/src/ticketing.rs:1739-2200 | Whatever is on record anywhere, late updates and restarts included, goes back to its step: issued to a sale that went through or tickets found, failed to a failed sale, paid to a fixed price, pending to a session, cancelled to an answered cancellation |
| `OrderHistory.StatusExact` | services/api/src/ticketing.rs:1739-2200 | Within a process the status is determined by what has happened: issued if and only if the sale went through or tickets were found, failed if and only if the sale failed and none were found since, and so on for every status |
| `OrderHistory.TermsExact` | services/api/src/ticketing.rs:1739-2052 | Within a process the amount and offer are those last answered, customer and session those of the checkout, and the version counts the changes |
| `OrderHistory.IssuedForGoodExactly` | services/api/src/ticketing.rs:2181-2200 | An issued order stays issued over prompt runs with restarts exactly if the row has it as issued |
| `OrderHistory.WrittenMatches` | services/api/src/ticketing.rs:3082-3088 | When a handler goes on after saving, row and memory agree |
| `OrderHistory.RowMatches` | services/api/src/ticketing.rs:3082-3088 | While no request is given up, the row lags behind memory only during a save |
| `OrderHistory.LogExact` | services/api/src/ticketing.rs:2045-2147 | Terms count as agreed or settled exactly if the payment provider created the session for the amount or found it settled in this run |
| `OrderHistory.SalesGoBack` | services/api/src/ticketing.rs:2125-2168 | Every sale goes back to such steps |
| `OrderHistory.HandlersGoOn` | services/api/src/ticketing.rs:2084-2124 | After reading, a handler calls outside exactly for a draft, a checkout only of a priced one; completion verifies exactly a pending checkout and reconciles exactly a payment without tickets |
| `OrderHistory.PaidCanBeIssued` | services/api/src/ticketing.rs:2089-2108 | A payment without tickets can always be reconciled, without another sale |
| `OrderHistory.DraftCanBeCancelled` | services/api/src/ticketing.rs:1812-1850 | A draft can always be cancelled |
| `Idempotency.KeyedRequests.Check` | services/api/src/ticketing.rs:2870-2885 | Memory decides first: the stored reply, or a conflict |
| `Idempotency.KeyedRequests.Claim` | services/api/src/ticketing.rs:2886-2888 | The body starts only when the claim of the key succeeds |
| `Idempotency.KeyedRequests.Look` | services/api/src/ticketing.rs:2889-2909 | A failed claim is answered from the row |
| `Idempotency.KeyedRequests.Finish` | services/api/src/ticketing.rs:2912-2926 | A result goes to memory before the row; a failure clears the row |
| `Idempotency.KeyedRequests.Recorded` | services/api/src/ticketing.rs:2927-2930 | The reply goes out after the row is updated |
| `Idempotency.DecidedStep` | services/api/src/ticketing.rs:2861-2930 | Once a key has an outcome, no step runs the body again or answers anything but the outcome or a conflict, unless a restart forgets it or a late update replaces it |
| `Idempotency.NeverRunsAgain` | services/api/src/ticketing.rs:2861-2930 | After any success reply the body never runs again in the process, whatever abandoned statement takes effect late |
| `Idempotency.SuccessIsFinal` | services/api/src/ticketing.rs:2861-2930 | And every answer in the process is that reply or a conflict when the hash differs; if the reply came from the row alone, as long as no abandoned statement takes effect late |
| `Idempotency.ForgottenRunsAgain` | services/api/src/ticketing.rs:2886-2930 | An outcome that is only in memory can be run again after a restart |
| `Idempotency.FinalOverRestartsExactly` | services/api/src/ticketing.rs:2886-2930 | Over restarts and late statements: the body never runs again exactly if the row holds a reply, and every answer repeats this one exactly if the row holds it and no late update can replace it |
| `Idempotency.SuccessOnlyInMemory` | services/api/src/ticketing.rs:2919-2930 | A request abandoned during its row update and repeated is answered with success from memory while the row has no reply |
| `Idempotency.RunsTwice` | services/api/src/ticketing.rs:2886-2930 | So after a success reply some run with a restart runs the body a second time |
| `Idempotency.ReplyReplaced` | services/api/src/ticketing.rs:2912-2930 | A run in which a late update replaces the reply, so that a restarted process answers otherwise than before |
| `IdempotencyLaws.AnswersGoBack` | services/api/src/ticketing.rs:2861-2930 | Over every run: a success repeats a reply that some body produced, a conflict is with a request that differed |
| `IdempotencyLaws.RecordedIsFinal` | services/api/src/ticketing.rs:2927-2930 | Without late statements a reply that goes out after its row update is repeated over all restarts |
| `IdempotencyLaws.FailureFreesKey` | services/api/src/ticketing.rs:2912-2918 | After a failed body the next request runs its body at once, exactly if the row holds no reply |
| `IdempotencyLaws.ClaimOutlivesProcess` | services/api/src/ticketing.rs:2886-2888 | After a crash of a running body nothing runs it again for the 120 seconds of its claim, and then a request can |
| `LatencyStats.Stats.Sample` | services/api/src/telemetry.rs:49-61 | A sample counts one observation in the first bucket whose bound it does not exceed |
| `LatencyStats.Stats.Merge` | services/api/src/telemetry.rs:62-75 | Merging in place adds every counter and bucket and keeps the larger maximum |
| `LatencyStats.Percentile` | services/api/src/telemetry.rs:196-210 | The bound of the first of nine buckets that reaches the rank, none without samples or beyond the last bound |
| `LatencyStats.ReachesMeansCovers` | services/api/src/telemetry.rs:196-210 | A bucket reaches the rank exactly when its bound covers that percentage of the samples |
| `LatencyStats.TalliedExact` | services/api/src/telemetry.rs:49-75 | A tally of samples has their number, their sum and the largest of them |
| `TelemetryLedger.TallyConcat` | services/api/src/telemetry.rs:303-317 | Adding a batch to the table equals aggregating its events after those already there |
| `TelemetryLedger.WholeOfTally` | services/api/src/telemetry.rs:62-75 | The rows of a key added up over the minutes say what its events say |
| `TelemetryLedger.SumPermuted` | services/api/src/telemetry.rs:62-75 | Aggregates do not depend on the order of events |
| `TelemetryLedger.SumExact` | services/api/src/telemetry.rs:62-75 | Counter by counter, aggregates are the totals over the events, and the largest latency is kept |
| `TelemetryLedger.BucketsExact` | services/api/src/telemetry.rs:62-75 | So is every bucket of the histogram |
| `Telemetry.Pipeline.Observe` | services/api/src/telemetry.rs:102-108 | The live counters of the key |
| `Telemetry.Pipeline.Send` | services/api/src/telemetry.rs:109-115 | Into the channel, or dropped when it is full |
| `Telemetry.Pipeline.Receive` | services/api/src/telemetry.rs:260-263 | Into the pending aggregates, or dropped when they have no room for a new key |
| `Telemetry.Pipeline.Tick` | services/api/src/telemetry.rs:264-267 | All pending aggregates become the batch when there is none |
| `Telemetry.Pipeline.Commit` | services/api/src/telemetry.rs:285-318 | The transaction adds the rows of a batch it has not seen, and nothing otherwise |
| `Telemetry.Pipeline.Acknowledge` | services/api/src/telemetry.rs:268 | The batch leaves memory on success |
| `Telemetry.AlwaysAccounted` | services/api/src/telemetry.rs:102-318 | In every reachable state each recorded event is in exactly one place, each aggregate is that of its place, and channel, pending keys and batch stay within their bounds |
| `Telemetry.Conservation` | services/api/src/telemetry.rs:62-318 | For every key and every counter at once: live = being recorded + channel + pending + unapplied batch + table + dropped |
| `Telemetry.DrainedMatches` | services/api/src/telemetry.rs:248-271 | Once drained and with nothing dropped, the table says what the live counters say |
| `Telemetry.CommitTwice` | services/api/src/telemetry.rs:290-299 | A repeated or late commit of a batch changes nothing, and a batch leaves memory only when the table holds it |
| `TelemetryFlow.DroppedExactly` | services/api/src/telemetry.rs:109-263 | An event is dropped exactly when it finds the channel full, or the pending rows full and none of its own |
| `TelemetryFlow.CanDrain` | services/api/src/telemetry.rs:248-318 | From every reachable state the pipeline can drain into the table without losing another event |
| `AdmissionControl.Security.Allow` | services/api/src/http/security.rs:40-69 | The table and reply after a call, statement by statement |
| `AdmissionControl.TableBounded` | services/api/src/http/security.rs:45-50 | The table never has more than 10,000 entries |
| `AdmissionControl.TwiceTheLimit` | services/api/src/http/security.rs:40-69 | At most twice the limit per client in any minute, both ends included, over any run with monotone time, evictions included |
| `AdmissionControl.TwiceTheLimitJittered` | services/api/src/http/security.rs:40-69 | When moments come out of order by at most a jitter, at most twice the limit in any interval shorter than a minute by twice the jitter |
| `AdmissionControl.AdmittedExactly` | services/api/src/http/security.rs:40-69 | In order: a call is admitted exactly if the table is not full of others who called within a minute and the client was admitted fewer times than its limit since its window opened |
| `AdmissionControl.RetryHintExact` | services/api/src/http/security.rs:62-66 | The hint is the least number of whole seconds after which a lone retry is admitted |
| `AdmissionControl.RetryHintWhenCrowded` | services/api/src/http/security.rs:46-49 | A lone retry 60 seconds after a full table is admitted |
| `TicketingLimit.Limiter.Limit` | services/api/src/ticketing.rs:501-514 | The queue and verdict after a call |
| `TicketingLimit.SlidingWindowExact` | services/api/src/ticketing.rs:501-514 | A call is admitted exactly when fewer than the maximum were admitted in the minute before it |
| `TicketingLimit.NeverMoreThanMax` | services/api/src/ticketing.rs:501-514 | At most the maximum in any minute, both ends included, over any run with monotone time |
| `TicketingLimit.NeverMoreThanMaxJittered` | services/api/src/ticketing.rs:501-514 | When the clock is read before the lock, so that moments come out of order by at most a jitter, at most the maximum in any interval shorter than a minute by the jitter |
| `TicketingLimit.OutOfOrderExceeds` | services/api/src/ticketing.rs:501-502 | With the least disorder the whole minute can exceed the maximum |

## Left out

- Identifiers are integers with their order; the model does not capture text, and trip identifiers are assumed unique and stop lists non-empty, as the importer provides them.
- Geometry, distances, warning texts, labels, risk score and search statistics of the router are presentation only.
- RaptorJourneys.Raptor: does not promise completeness on routes that realtime reorders, for margins that differ by how a stop was reached, or where drop-off flags differ within a route, because the code compares labels by arrival alone; soundness, the Pareto order and termination need none of this.
- ConnectionScan.EarliestArrivals: does not model 32-bit overflow of arrival plus walking time, because the code adds without a check there.
- ScanLabels.ClosedIsOptimal: does not cover itineraries that the transfer limit hinders, because the scan keeps one label per stop, by arrival alone, and a label that used up its changes hides a later one with changes left (`ConnectionScan.LimitHides`).
- Realtime.FromUpdates: signed 32-bit delays are integers clamped as the code clamps them; overflow cannot occur within the clamp.
- Hash maps and sets iterate in any order where the code iterates them; the results are proved independent of that order.
- Creation of an order: an order's identifier is unknown to clients before the order is in memory and in the database, so runs start from a created order; quote, booking and document records carry no decisions and are not part of the order model.
- Orders: amounts are assumed to fit the 32-bit column; several processes on one database are not modelled.
- Orders.SellAtMostOnce: holds for runs in which no abandoned row update takes effect after its request ended; `Orders.NeverAgainExactly` states the rest.
- Idempotency: claims of the key by another process at the same time are not modelled; database errors end a request without an entry among the answers.
- Refunds, station correlation, document streaming, signatures and the clients of the railway and the payment provider are answered by arbitrary parameters or left out.
- Telemetry: counters are unbounded where the code has 64 bits; pruning after 30 days and loss of memory with the process are not modelled, and the loop runs with a database.
- TicketingLimit: the branch that counts in the database is not modelled.
- AdmissionControl: concurrency permits and the choice of the client address are not modelled.
- Importers, data pipeline, realtime worker, administration pages and configuration are outside this model.
