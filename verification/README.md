# ldk-controller: a verified model

ldk-controller is a Lightning node controller that answers requests arriving over
Nostr. This project models its three algorithmic parts in Dafny and proves what they
keep over every input, every run and every interleaving:

* the **route search** over the channel graph, a hand-written Dijkstra with a six-hop
  cap that collects several routes;
* the **access accounting**: token-bucket counters shared between concurrent requests,
  debited before a request executes and refunded when it fails, while profile grants
  swap the counters out underneath;
* the **codecs and listings**: short channel ids, hexadecimal text, and paged payment
  lists.

`dafny verify dfyconfig.toml` checks everything.

## Main results

*Route search.* A run is the sequence of heap entries popped; ties are free, so every
statement holds for every tie-breaking order. Every returned route leads from us to the
destination over listed channels, none of its nodes twice; each hop's channel announces
limits that admit the amount and exactly the delta and the price the hop carries, and
the totals are the sums of the hops (`FindRoutes.FindRoutes`). Routes form a tree, end
in distinct channels and come in order of fee. Over all orders of ties the drained runs
of the search visit exactly the *capped cheapest trees* of the graph, a notion without
heap or run (`RouteTrees.RunsAreTrees`). So the graph alone says what the six-hop cap
can spoil: some order of ties returns nothing **if and only if** the graph has a capped
cheapest tree without an exit to the destination, and some order misses the cheapest
walk **if and only if** it has one without a cheap exit. Told from walks: when every
cheapest loop-free walk has at most six hops, the first route is always there and always
cheapest; when the cap splits no tie between cheapest walks, this is the case exactly
then. A drained search without discards returns exactly one route per usable last
channel, each the cheapest for its last hop, and nothing exactly when the destination is
unreachable. The order in which channels are listed never matters, and the heap's own
order of tuples gives one result (`RouteTuples.TupleResult`). On graphs of at most seven
nodes the cap cannot act; on eight nodes it can hide a two-hop route altogether
(`RouteWitness.HopCapHidesRoute`), because a node visited through a long cheap prefix is
never expanded again through a short dear one.

*Access accounting.* Any number of requests, profile upserts and full clears interleave,
one shared access at a time. Every interleaving is equivalent to the serial history it
logs, in which an access check debits all its counters or none; locks never deadlock,
and every run ends with every thread finished; no balance is ever negative. A request is
denied access **if and only if** the profile it read has a method table in which neither
its verb nor `ALL` stands, and otherwise it is charged exactly what that profile makes
it owe: a million under the rate that governs its verb, and what it spends under the
quota (`ProtocolAnswers.AnsweredAsRead`). It keeps its debits **if and only if** it
executed and did not fail, and gives each back once **if and only if** it executed and
failed (`ProtocolOutcomes.OutcomeIff`). After a completed upsert the counters in the
maps are new, and no request that had fetched before it ever touches them. However many
resets overlap, profile and counters of a pubkey end in agreement **if and only if** for
every key the reset that wrote the entry last prescribes the same rule as the one that
published last (`ProtocolResets.AgreesIff`); resets that do not overlap always agree,
and two that do need not (`ProtocolRaces.CrossedUpserts`), which the two ingest tasks
permit. In an *orderly* schedule, where resets of a pubkey overlap neither each other
nor the fetching of its requests, counters without refill are conserved to the unit and
no refund is clamped. Outside one, a request that reads its profile before a reset and
fetches its counter after it applies the old rule to the new counter; that leaves a
counter without refill conserved in every run **if and only if** nothing can be drawn
under the old rule, or it has no refill and no smaller capacity
(`ProtocolRaces.StaleRuleIff`). And a request can be told that a counter is missing
which exists before and after, while an upsert has dropped it and not made it again
(`ProtocolRaces.MissedBetween`). The races are shown in schedules that two tasks can
take, each of which handles its requests and grants one after another.

*Counters.* The saturating refill is exact on every reachable balance. The refill time is
never advanced, so the token-bucket bound holds for all runs of a rule **if and only if**
nothing can be refilled at all (`RateBounds.BucketBoundIff`); for runs of one fixed amount,
such as the 1,000,000 of every access-rate call, also where the amount exceeds the capacity
or a second call can never be served while a first is out (`RateBounds.FixedBucketIff`).

*Codecs and listings.* Short channel ids and hexadecimal text survive the round trip; the
accepted texts, and what is read from each, are characterised exactly
(`Scid.FieldsIff`, `Scid.PackBits`, `Hex.TextOfDecode`). A page of payments is the window of
the one list of positions that holds every payment asked for, once, newest first and as
stored within one second (`Paging.PageOf`).

*Grants.* Two tasks ingest grants, and each tests a grant's stamp against the watermark
of its target first and stores the profile later. In every interleaving the watermarks
only grow, and each is the stamp of the latest grant delivered: of the greatest time,
and of the greatest event id within that second (`GrantTasks.WatermarkIsLatest`). Of
events handled one after another, any two deliveries of one set end at one watermark,
and with one profile **if and only if** the newest event parses or none does. Of events
handled by several tasks, once all is settled the newest admitted grant is in force **if
and only if** no reset of other content published after it
(`GrantOutcomes.NewestInForceIff`), which is certain when no grant of a target is
admitted while another is on its way to be stored. Otherwise, with every pair of grants
of one target, two tasks can leave the older one in force for good, while profile and
counters agree and the newer one's redelivery is refused
(`GrantOutcomes.OlderStaysInForce`).

## Where the code and its documentation differ

* The comment on the withdrawal (src/state/rate_state.rs:100-106) speaks of persisting the
  refilled balance; the refill time is not persisted with it, so later withdrawals count the
  same elapsed time again. The model follows the code.
* Of two grants of one second the code keeps the higher event id
  (src/lib.rs:138-139); NIP-01, section "Kinds", keeps the lower one.
* `decode_hex` and `parse_scid` go through Rust's integer parsers, which accept a leading
  plus sign; the model accepts it too, and the round-trip lemmas say exactly where it matters.

## How the modules follow the source

| module | follows |
|---|---|
| `RouteGraph`, `RouteSearch`, `FindRoutes` | `find_routes`, src/lightning/ldk_service.rs:947-1056 |
| `RouteInvariants`, `RouteOptimal`, `RouteResults`, `RouteTermination`, `RouteTrees`, `RouteCheapest`, `RouteOrders`, `RouteTuples`, `RouteWitness` | proofs about its runs |
| `Scid`, `Hex` | src/lightning/ldk_service.rs:1059-1075, 1112-1129 |
| `Paging` | `list_payments_filtered` and the list_invoices handler |
| `RateStates`, `RateBounds` | src/state/rate_state.rs |
| `AccessKeys`, `Profiles` | keys, lock order, profile types and rule choice |
| `AccessStore` | src/state/store/access_store.rs, src/usage_profile/service.rs, src/usage_profile/store.rs |
| `AccessControl` | access check, refund and lifecycle of src/lib.rs, by one caller at a time |
| `Protocol` | the same code as a step system, with handle identities |
| `ProtocolLocks`, `ProtocolProgress`, `ProtocolPlay`, `ProtocolSerial`, `ProtocolOutcomes`, `ProtocolAnswers`, `ProtocolClocks`, `ProtocolLedger`, `ProtocolResets`, `ProtocolCleanCut`, `ProtocolOrderly`, `ProtocolRaces` | proofs about its runs |
| `Grants` | grant ingestion of src/lib.rs, by one task |
| `GrantTasks`, `GrantOutcomes` | the same by any number of tasks: the watermark added to `Protocol` |

Unsigned 64-bit sums and products that the source leaves unchecked wrap, as in a release
build; `RouteGraph.HopFeeExactIffProductFits` and `RouteSearch.ExtendCost` say that only
the product of amount and rate can ever do so, which is also where a debug build would stop.
The heap, the library's stable sort and map iteration are used by their contracts: any
least entry, the unique stable order, any order. The argument `graph` of `FindRoutes` is what
the one read of each listed channel returned, so the network graph may change between reads.

In `Protocol` each shared access of the source is one step: reading the profile map,
reading a handle map, taking one counter lock, checking, debiting or unlocking one counter,
one map write of a reset. `Sys.cells` holds every counter ever created, so an orphaned
handle stays distinct from the current one. The fields `born`, `key`, `fetches` and `log`
are history: no step reads them.

## Model

| member | source | states |
|---|---|---|
| RouteGraph.HopFeeExactIffProductFits | src/lightning/ldk_service.rs:1046-1047 | the hop fee is the exact BOLT #7 floor formula if and only if amount times rate fits in 64 bits, and is bounded either way |
| RouteGraph.BuildAdjacency | src/lightning/ldk_service.rs:972-1002 | the adjacency map holds exactly the announced directions that admit the amount, each channel once per direction |
| RouteInvariants.OffersChanneled | src/lightning/ldk_service.rs:974-1002 | in that map a channel leads into a node from one side only |
| RouteSearch.ExtendCost | src/lightning/ldk_service.rs:1050 | adding a hop fee to the cost of any entry that is expanded never overflows |
| RouteSearch.ExtendGood | src/lightning/ldk_service.rs:1041-1051 | every pushed entry is a loop-free walk of at most seven hops with its exact cost, rooted in visited prefixes |
| RouteSearch.NextKeepsEntries | src/lightning/ldk_service.rs:1013-1053 | one iteration keeps every heap, visited, found and discarded entry a sound rooted walk, under each of its branches |
| RouteInvariants.NextKeepsOrder | src/lightning/ldk_service.rs:1013-1053 | one iteration keeps visited and found costs below all heap costs and the found list sorted |
| RouteInvariants.NextKeepsCoverage | src/lightning/ldk_service.rs:1038-1052 | one iteration forgets no edge of a visited node: its target is visited or the extended entry is in the heap, found or discarded |
| RouteInvariants.NextKeepsOnce | src/lightning/ldk_service.rs:1013-1053 | one iteration never creates an entry that is in the heap or found already |
| RouteOptimal.NextKeepsLeast | src/lightning/ldk_service.rs:1013-1053 | one iteration keeps every visited node's cost least among walks to it, except those undercut by a discarded entry |
| RouteOptimal.FirstRouteOrCut | src/lightning/ldk_service.rs:1013-1053 | every walk to the destination costs at least the first route or passes a node where an entry as cheap was discarded |
| RouteOptimal.FirstRouteLeastIff | src/lightning/ldk_service.rs:1013-1053 | the first route is cheapest over all walks if and only if no discarded entry could be continued for less |
| RouteOptimal.FirstRouteLeast | src/lightning/ldk_service.rs:1013-1053 | with nothing discarded the first route is cheapest over all walks |
| RouteOptimal.RouteLeastForLastHop | src/lightning/ldk_service.rs:1013-1053 | with nothing discarded every route is cheapest among the walks with its own last hop |
| RouteResults.RoutesSound | src/lightning/ldk_service.rs:1013-1055 | routes are loop-free walks of one to six hops from us to the destination with exact fee totals, sorted by fee, at most maxRoutes |
| RouteResults.RouteFeesExact | src/lightning/ldk_service.rs:1046-1049 | for amounts up to 2^32, or whenever products fit, each hop of a route carries the exact fee of an edge of the graph |
| RouteResults.RoutesFormTree | src/lightning/ldk_service.rs:1038-1052 | two routes sharing an intermediate node share the whole prefix up to it |
| RouteResults.LastChannelsDistinct | src/lightning/ldk_service.rs:1020-1036 | no two routes end with the same channel |
| RouteResults.ExactlyOnePerLastChannel | src/lightning/ldk_service.rs:1013-1055 | drained without discards, there is exactly one route per usable channel into the destination from each node reachable without passing it |
| RouteResults.EmptyIffUnreachable | src/lightning/ldk_service.rs:1013-1055 | drained without discards, the result is empty if and only if no walk reaches the destination |
| RouteResults.SmallGraphSearchIsExact | src/lightning/ldk_service.rs:1017-1019 | on at most seven nodes the search finds a route if and only if one exists and its first is cheapest |
| RouteTrees.DrainedIsTree | src/lightning/ldk_service.rs:1013-1053 | what a drained search visited is a capped cheapest tree of the graph, however ties were broken |
| RouteTrees.RunsAreTrees | src/lightning/ldk_service.rs:1013-1053 | over all limits and orders of ties the drained runs visit exactly the capped cheapest trees of the graph |
| RouteTrees.EmptyPossibleIff | src/lightning/ldk_service.rs:1013-1055 | some order of ties returns nothing if and only if the graph has a capped cheapest tree without an exit to the destination |
| RouteTrees.InexactPossibleIff | src/lightning/ldk_service.rs:1013-1055 | some order of ties misses the cheapest walk if and only if the graph has a capped cheapest tree without a cheap exit |
| RouteCheapest.ShortCheapestSoExact | src/lightning/ldk_service.rs:1011-1053 | when every cheapest loop-free walk has at most six hops, the first route is there and cheapest over all walks, for every order of ties |
| RouteCheapest.ExactSoShort | src/lightning/ldk_service.rs:1011-1053 | a cheapest first route is a cheapest loop-free walk of at most six hops |
| RouteCheapest.ExactIffShort | src/lightning/ldk_service.rs:1011-1053 | where the cap splits no tie between cheapest walks, the first route is there and cheapest if and only if they have at most six hops |
| RouteCheapest.EmptyIffAllCross | src/lightning/ldk_service.rs:1017-1052 | a halted search returned nothing if and only if every walk to the destination passes a hop discarded out of a visited node |
| RouteOrders.ListingIrrelevant | src/lightning/ldk_service.rs:972-1053 | under any order of ties the runs of the search and their states do not depend on the order in which channels are listed |
| RouteOrders.OneResult | src/lightning/ldk_service.rs:1006-1055 | with ties broken by a total order that goes by cost first, there is one halted run, the same for every listing order |
| RouteOrders.ResultExists | src/lightning/ldk_service.rs:1006-1055 | and there always is one |
| RouteTuples.TuplesCostFirst | src/lightning/ldk_service.rs:1007-1013 | comparing tuples part by part is such an order |
| RouteTuples.TupleResult | src/lightning/ldk_service.rs:1006-1055 | popping the least tuple, the search returns the same routes for every listing order |
| RouteWitness.HopCapHidesRoute | src/lightning/ldk_service.rs:1017-1040 | on eight nodes a legal run halts with no route although a two-hop route exists |
| RouteTermination.MeasureDrops | src/lightning/ldk_service.rs:1013-1053 | every iteration lowers (unvisited nodes, heap size) lexicographically, on every finite graph |
| FindRoutes.PopLeast | src/lightning/ldk_service.rs:1013 | the popped entry is one of least cost |
| FindRoutes.PushExtensions | src/lightning/ldk_service.rs:1041-1052 | the edge loop pushes exactly the extensions to unvisited neighbours |
| FindRoutes.Visit | src/lightning/ldk_service.rs:1017-1053 | the loop body takes the transition of the run semantics, for heap, visited set and results |
| FindRoutes.SearchLoop | src/lightning/ldk_service.rs:1006-1055 | the loop takes a legal run to its halt and returns exactly the routes that run found |
| FindRoutes.FindRoutes | src/lightning/ldk_service.rs:947-1056 | unparsable or own destination gives nothing; otherwise the routes of a halted legal run over exactly the filtered graph, each a path of distinct nodes over listed channels whose announced limits admit the amount, every hop with the announced delta and the announced price |
| FindRoutes.SoundPriced | src/lightning/ldk_service.rs:974-1002 | told by the fields of channels and policies, a sound route as rendered is such a path |
| FindRoutes.ReachedPresented | src/lightning/ldk_service.rs:1020-1055 | the rendered routes number at most maxRoutes, come by fee, have one to six hops ending at the destination, and fees and lock deltas that add up to the totals |
| FindRoutes.RenderRoute | src/lightning/ldk_service.rs:1021-1035 | a found path is rendered hop by hop with its cost and lock total |
| FindRoutes.RenderInjective | src/lightning/ldk_service.rs:1021-1035 | equal rendered routes come from equal paths |
| FindRoutes.TimeLockExact | src/lightning/ldk_service.rs:1030 | the 32-bit lock total of a returned route is the exact sum of its hop deltas |
| Scid.ParseOfFormat | src/lightning/ldk_service.rs:1059-1075 | parsing undoes formatting for every 64-bit id |
| Scid.FormatOfParseIff | src/lightning/ldk_service.rs:1059-1075 | for every accepted text, formatting gives the canonical text of its numbers back if and only if they are in the ranges of the layout |
| Scid.FieldsIff | src/lightning/ldk_service.rs:1066-1073 | exactly the texts of three numerals of 64-bit numbers with an `x` between are accepted, each with or without a plus sign, and read as those numbers |
| Scid.ParseScidIff | src/lightning/ldk_service.rs:1066-1075 | a text is parsed if and only if it can be read so, to the id packed from its numbers |
| Scid.PackBits | src/lightning/ldk_service.rs:1074 | every bit of the packed id, also where numbers overlap or exceed the layout |
| Scid.FormatMeans | src/lightning/ldk_service.rs:1059-1064 | an id is printed as the three numbers it is made of, without leading zeros |
| Scid.DecimalCanonical | src/lightning/ldk_service.rs:1063 | a number is printed as its one numeral without leading zeros |
| Scid.ParseU64Iff | src/lightning/ldk_service.rs:1071-1073 | a number is read exactly from its numerals |
| Scid.ParseOfDecimal | src/lightning/ldk_service.rs:1071-1073 | the number parser reads back every printed 64-bit number and refuses larger ones |
| Hex.HexString | src/lightning/ldk_service.rs:1112-1119 | the loop appends the two-digit text of each byte |
| Hex.DecodeOfText | src/lightning/ldk_service.rs:1112-1129 | decoding undoes encoding for every byte string |
| Hex.DecodesIff | src/lightning/ldk_service.rs:1121-1129 | exactly the texts of even length are accepted whose pairs are two digits or a plus sign and a digit; odd length has its own error |
| Hex.TextOfDecode | src/lightning/ldk_service.rs:1121-1129 | what is decoded from any accepted text is what its digits say, in either case and with a plus sign read as zero |
| Hex.TextOfDecodeIff | src/lightning/ldk_service.rs:1112-1129 | re-encoding an accepted text gives it in lower case if and only if it consists of digits |
| Paging.SortCharacterized | src/lightning/ldk_service.rs:826 | a list is the model's sort if and only if it is newest-first and keeps the order within each time |
| Paging.FilterSort | src/lightning/ldk_service.rs:793-826 | filtering before or after the stable sort is the same |
| Paging.ListPaymentsFiltered | src/lightning/ldk_service.rs:775-839 | returns the window of the payments that lie in the period and have the direction, kind and status asked for, each as often as it is stored, newest first and as stored within one time |
| Paging.RankingExists | src/lightning/ldk_service.rs:793-826 | filter and stable sort list the selected positions, each once, by time and then by place |
| Paging.RankingUnique | src/lightning/ldk_service.rs:793-826 | only one list of positions is such a ranking |
| Paging.PagesTile | src/lightning/ldk_service.rs:828-838 | consecutive pages tile the list without gap or repeat |
| Paging.ListInvoices | src/lib.rs:1786-1854 | the in-place cut after the state filter shows the same windows over the newest-first list of inbound BOLT 11 payments of the period with the state asked for |
| RateStates.RefillExactIff | src/state/rate_state.rs:49-62 | the saturating refill equals the exact one if and only if the refill fits in i64 or the cap is within reach |
| RateStates.RefillExact | src/state/rate_state.rs:49-62 | on non-negative balance and capacity the refill is exact |
| RateStates.RefillMonotone | src/state/rate_state.rs:49-62 | the refilled balance is monotone in time |
| RateStates.AdmittedIffCovered | src/state/rate_state.rs:79-92 | the check admits an amount if and only if the exact refilled balance covers it |
| RateStates.RefusedBecause | src/state/rate_state.rs:79-92 | which error a refused withdrawal gets: an amount beyond i64, then a negative capacity, then a balance that does not cover it |
| RateStates.WithdrawThenRefund | src/state/rate_state.rs:118-161 | withdraw then refund under one rule leaves exactly the refilled balance |
| RateStates.StaysInRange | src/state/rate_state.rs:118-161 | withdrawals and refunds keep the balance between 0 and the capacity |
| RateStates.RateState.CheckWithdrawAfterRefill | src/state/rate_state.rs:79-92 | admits exactly what the exact refill covers, with its error otherwise, changing nothing |
| RateStates.RateState.WithdrawAfterRefill | src/state/rate_state.rs:118-132 | succeeds exactly when the check does, debiting the exact refilled balance; never moves the refill time |
| RateStates.RateState.Refund | src/state/rate_state.rs:144-161 | credits in full below the cap and fills up to it otherwise, or refuses, with its error, and changes nothing |
| RateBounds.DrawnIsBounded | src/state/rate_state.rs:118-161 | over every run the net amount drawn is at most the starting balance plus one whole refill per admitted withdrawal |
| RateBounds.BucketBoundIff | src/state/rate_state.rs:118-132 | every run from a fresh counter keeps the token-bucket bound if and only if rate or capacity is zero or no time can pass |
| RateBounds.FixedBucketIff | src/state/rate_state.rs:118-161 | for runs of one fixed amount the bound holds if and only if nothing can be refilled, the amount exceeds the capacity, or a second call can never be served while a first is out |
| RateBounds.SingleWithdrawalWithinBucket | src/state/rate_state.rs:118-132 | one withdrawal always keeps the token-bucket bound |
| AccessKeys.CompareMeans | src/lib.rs:249 | strings compare by their first difference |
| AccessKeys.BeforeMeans | src/lib.rs:236-252 | method keys lock before quota keys, and keys of one kind by pubkey and then by method name |
| AccessKeys.KeysEqual | src/lib.rs:236-252 | keys compare equal exactly when equal or differing only in methods of one name |
| AccessKeys.StrictTotalOrder | src/lib.rs:236-252 | the comparison is a strict total order on keys whose method names differ |
| AccessKeys.AtMostTwoSorted | src/lib.rs:335 | a method update followed by a quota update is already in strict lock order |
| AccessStore.Controller.ClearStatesForPubkey | src/usage_profile/service.rs:16-19 | drops exactly the entries of the pubkey from both maps |
| AccessStore.Controller.InitializeRates | src/usage_profile/service.rs:25-40 | creates one full fresh counter for each method whose rule has a rate, and no other entry |
| AccessStore.Controller.InitializeQuota | src/usage_profile/service.rs:42-51 | creates one full fresh quota counter exactly with a quota |
| AccessStore.Controller.UpsertUsageProfileAndResetStates | src/usage_profile/service.rs:66-70 | keeps profiles and counters in agreement; the counters of the pubkey are fresh and full, all others the same objects, none written |
| AccessStore.Controller.ClearAllUsageProfilesAndStates | src/usage_profile/service.rs:73-76 | empties profiles and both counter maps, in agreement |
| Profiles.MethodRuleMeans | src/lib.rs:264-280 | told by the method table: who is denied, and which rule governs a verb |
| AccessControl.PlannedJustified | src/lib.rs:254-333 | told by the fields of the profile and the maps: exactly who is turned away and why, and otherwise exactly what is charged, under which rule, to which counter, and how much |
| AccessControl.PlanUpdates | src/lib.rs:254-335 | turns away or charges exactly so, in lock order on distinct counters of their own rules |
| AccessControl.MissingIffFallback | src/lib.rs:263-298 | a missing rate counter is reported exactly when the rule is that of the ALL entry |
| AccessControl.CheckAll | src/lib.rs:349-356 | the check loop changes nothing and reports the first failing update |
| AccessControl.DebitAll | src/lib.rs:358-365 | after the check loop the debit loop never fails and debits each counter by exactly its amount |
| AccessControl.VerifyAccess | src/lib.rs:254-370 | all or nothing: whoever the profile turns away, or whose first failing check refuses, changes no counter; otherwise exactly what is owed by the profile is debited |
| AccessControl.RefundAppliedStateUpdates | src/lib.rs:372-393 | credits each update back to its own counter |
| AccessControl.ProcessRequest | src/lib.rs:2417-2488 | debits are kept unless execution fails, and then exactly the refilled balances remain |
| ProtocolLocks.PlanSorted | src/lib.rs:284-335 | the updates of a request are strictly ascending in lock order |
| ProtocolLocks.CallKeepsShape | src/lib.rs:337-393 | every step of a request keeps handles, keys and lock ownership consistent with its phase |
| ProtocolLocks.RunShape | src/lib.rs:254-393 | every reachable state keeps maps, plans and locks consistent, under requests and resets |
| ProtocolLocks.HolderWantsMore | src/lib.rs:335-347 | whoever holds what a blocked thread wants is running or waits for a strictly later key |
| ProtocolLocks.NoDeadlock | src/lib.rs:335-393 | in every reachable state with an unfinished thread some unfinished thread can step |
| ProtocolProgress.RunsAreFinite | src/lib.rs:2417-2488 | no run is longer than the sum of its threads' steps, under any schedule |
| ProtocolProgress.StuckMeansFinished | src/lib.rs:2417-2488 | a reachable state in which nobody can step has finished every request, upsert and clear |
| ProtocolSerial.DebitNeverFails | src/lib.rs:349-365 | in every interleaving the debit loop never fails after the check loop passed |
| ProtocolSerial.Serializable | src/lib.rs:337-393 | the history of every reachable state replays serially with the answers it recorded, to exactly the balances of the counters once no debit is under way |
| ProtocolSerial.OutcomesRecorded | src/lib.rs:337-393 | a request whose check loop has ended stands in the history once with its own answer; one denied without a profile, a rule or a counter does not stand there; its refunds are updates of its plan in order, all of them once it has returned |
| ProtocolOutcomes.ExecutionDecides | src/lib.rs:2457-2480 | in every schedule, from its execution on: a request that did not fail keeps its debits and is never refunded; one that failed is refunded each update once by the time it is finished |
| ProtocolOutcomes.OutcomeIff | src/lib.rs:2417-2488 | a finished request kept its debits if and only if it executed and did not fail, gave them back if and only if it executed and failed, and is denied if and only if it never executed |
| ProtocolOutcomes.ExecutesOnce | src/lib.rs:2457-2480 | no request executes twice |
| ProtocolAnswers.AnsweredAsRead | src/lib.rs:254-333 | in every schedule the profile a request read decides: unauthorized if and only if there was none, denied access if and only if its table has neither the verb nor `ALL`, and otherwise planned and checked for exactly what it owes by its fields |
| ProtocolAnswers.HasRead | src/lib.rs:258-259 | every request under way has read a profile |
| ProtocolClocks.UpdatesSourced | src/lib.rs:282-318 | in every schedule each counter a request uses was the current one when it looked up its key, and its plan has the time it read then |
| ProtocolClocks.CountersTimed | src/usage_profile/service.rs:66-70 | in every schedule a counter refills from the time that an upsert of its pubkey read after dropping the old ones |
| ProtocolSerial.EarlyDenialsSerial | src/lib.rs:254-333 | while no reset runs, a request is denied before its check loop exactly with the denial that the fields of the constant profiles and the maps decide, and reaches the loop exactly if they decide none |
| ProtocolSerial.AcceptedDebitsAll | src/lib.rs:349-365 | an accepted serial check debits each planned counter by exactly its amount and no other |
| ProtocolLedger.Conservation | src/lib.rs:2417-2488 | in every reachable state balance, in-flight and kept debits of a counter without refill, fetched under harmless rules only, add up to its capacity |
| ProtocolLedger.BalanceInRange | src/state/rate_state.rs:118-161 | no balance is negative in any reachable state; fetched under its own rule only, it is at most the capacity |
| ProtocolLedger.RefundNeverClamped | src/lib.rs:372-393 | a pending refund on such a counter is credited in full |
| ProtocolOrderly.OrderlyOwnRules | src/lib.rs:254-333 | when resets of a pubkey overlap neither each other nor its requests' fetching, its counters are fetched under their own rules only |
| ProtocolOrderly.OrderlyConservation | src/lib.rs:2417-2488 | in every state of such a schedule a counter is within its capacity, and one without refill accounts for its capacity to the unit |
| ProtocolOrderly.OrderlyRefund | src/lib.rs:372-393 | in such a schedule no refund to a counter without refill is clamped |
| ProtocolOrderly.OrderlyFetch | src/lib.rs:263-333 | in such a schedule a rate counter is missing exactly when the rule is that of the ALL entry or has a negative capacity, a quota counter exactly for a negative capacity |
| ProtocolOrderly.MissedIff | src/lib.rs:284-333 | in any schedule a request is told that a counter is missing if and only if no reset has written its entry or the last to write it has left nothing there |
| ProtocolResets.LastWriterDecides | src/usage_profile/service.rs:16-52 | in every schedule an entry of the maps holds what its last writer left there |
| ProtocolResets.AgreesIff | src/usage_profile/service.rs:66-76 | with no reset under way, profile and counters of a pubkey agree if and only if for every key the last writer of the entry prescribes the same rule as the last publisher, for any number of overlapping upserts and clears |
| ProtocolResets.ApartSoAgrees | src/usage_profile/service.rs:66-76 | when the resets of a pubkey do not overlap, profile and counters agree whenever none is under way, a missing profile with no counters included |
| ProtocolCleanCut.CleanCut | src/usage_profile/service.rs:66-70 | no later step of a request that was done fetching for a kind of counter ever changes one of that kind created afterwards |
| ProtocolCleanCut.NeverUsesNew | src/lib.rs:284-393 | such a request never holds a counter of that kind created afterwards |
| ProtocolCleanCut.UpsertCompletes | src/usage_profile/service.rs:66-70 | an upsert run to its end among any requests and any upserts of other pubkeys leaves profile and counters in agreement, each counter new, used by no request from before, and full unless a request of the pubkey fetched in between |
| ProtocolCleanCut.OthersChangeNothing | src/usage_profile/service.rs:16-52 | requests and upserts of other pubkeys change no profile, entry or balance of a pubkey in any interleaving |
| ProtocolRaces.StaleRuleIff | src/lib.rs:259-309 | a counter without refill is conserved in every run that fetches it under another rule as well if and only if nothing can be drawn under that rule or it has no refill and no smaller capacity |
| ProtocolRaces.Violation | src/lib.rs:259-309 | for every other pair of rules, a run of two tasks, each handling its threads one after another, after which the units of the new counter do not add up |
| ProtocolRaces.CrossedUpserts | src/lib.rs:770-830 | two overlapping upserts of one pubkey by two tasks can both complete and leave the profile of one with the counters of the other |
| ProtocolRaces.MissedBetween | src/usage_profile/service.rs:66-70 | a request served while an upsert of the very same profile runs can be told that a counter is missing which exists before and after |
| Grants.NewerMeans | src/lib.rs:138-139 | the later second is newer; within one the first difference of the event ids decides, for the greater |
| Grants.MarkIsLatest | src/lib.rs:126-151 | after any deliveries the watermark is the stamp of one of them, of the greatest time and within that second of the greatest id |
| Grants.MarkGrows | src/lib.rs:126-151 | whatever is delivered to one task, in whatever order, the watermark only grows |
| Grants.SameEventsSameMark | src/lib.rs:117-152 | deliveries of one event set in any order, with repeats, end at one watermark |
| Grants.NewestDecides | src/lib.rs:777-789 | of events handled one after another, a parsing newest one is the final profile, whatever the order |
| Grants.ConvergentIff | src/lib.rs:777-789 | handled one after another, all deliveries of an event set agree on the profile if and only if its newest event parses or none does |
| Grants.Ingester.ShouldApplyGrantEvent | src/lib.rs:117-152 | atomically admits and records a first event and one of a later second, never one of an earlier second, and within a second the greater id |
| Grants.Ingester.IngestGrant | src/lib.rs:808-823 | one event handled by itself steps the register of its target and no other; old or unparsable events reset nothing |
| Grants.Ingester.IngestBatch | src/lib.rs:777-789 | a batch handled by itself folds each target's own events |
| GrantTasks.ServiceIsProtocol | src/lib.rs:770-830 | with the watermark left out, every run of the ingesting service is a run of the protocol |
| GrantTasks.WatermarksGrow | src/lib.rs:117-152 | in every interleaving of any number of tasks no watermark goes back in time, nor in ids within a second |
| GrantTasks.WatermarkIsLatest | src/lib.rs:117-152 | in every interleaving the watermark of a target is the stamp of a grant delivered for it, of the greatest time and within that second of the greatest id |
| GrantOutcomes.NewestInForceIff | src/lib.rs:777-823 | once settled, the newest admitted grant of a target is in force if and only if no reset of other content published last, with distinct contents if and only if no other reset published after it |
| GrantOutcomes.OneAtATimeSoNewest | src/lib.rs:777-823 | when no grant of a target is admitted while another is on its way to be stored, the newest admitted grant is in force once settled, unless a clear came last |
| GrantOutcomes.OlderStaysInForce | src/lib.rs:770-830 | for every two grants of a target, a run of two tasks after which the older is in force, agreeing with its counters, and the newer is refused on redelivery |
| GrantOutcomes.HandledAlone | src/lib.rs:808-823 | a grant whose admission and upsert nothing comes between steps the register of its target as one event |
| GrantOutcomes.EveryScheduleServed | src/lib.rs:770-830 | every schedule of the protocol is taken by the service under some stamps, so the races of the one are races of the other |

## Left out

- Relay traffic, encryption, JSON and tag parsing: requests arrive decrypted, grants as target, stamp and a profile or "does not parse".
- Calls into the Lightning node: an execution is a free choice of success or failure.
- Handler validation, control requests and their permission table: one-branch dispatch.
- The spend amount of a request, including BIP-321 URIs, is an arbitrary 64-bit number; the URI parser is not part of this model.
- The mapping of rate errors to NIP-47 codes and messages: a table without state.
- Poisoned locks, lazy initialisation and reading the clock: locks are never poisoned and times are arbitrary.
- The control permissions of a profile: they take no part in accounting.
- Offer, address, forwarding and subscription stores, notifications and balance summaries: easy map updates.
- Test hooks that seed or clear state behind the reset service.
- Usage profiles are read and replaced under one map lock; that lock and those of the handle maps are held for one access only and appear as single steps.
- Hex.DecodesIff: texts are sequences of characters; input with non-ASCII characters, which the source slices by byte offset and may panic on, is not modelled.
- AccessControl.VerifyAccess: runs without other threads, so taking and releasing locks is not visible there; `Protocol` has every lock step.
- Paging.ListInvoices: the page of payments is modelled, not the invoice entry each is rendered to.
